/** The cloud-account helpers: MAC address formatting, the projection of
    the raw device and group lists, and the checks made before logging in.
    The HTTP requests themselves are not modelled; their responses are
    parameters. */
module AvionHttp {
  import opened Common

  /** `zip(iterator, iterator)` over one iterator: consecutive
      non-overlapping pairs, a trailing odd character dropped. */
  function Pairs(s: string): (r: seq<string>)
    ensures |r| == |s| / 2
    ensures forall k :: 0 <= k < |r| ==> r[k] == s[2 * k..2 * k + 2]
    decreases |s|
  {
    if |s| < 2 then [] else [s[..2]] + Pairs(s[2..])
  }

  /** `":".join(parts)`. */
  function Join(parts: seq<string>): string
  {
    if parts == [] then ""
    else if |parts| == 1 then parts[0]
    else parts[0] + ":" + Join(parts[1..])
  }

  /** `util_format_mac_address`. */
  function FormatMac(mac: string): (r: string)
    ensures r == "" <==> |mac| < 2
  {
    Join(Pairs(Lower(mac)))
  }

  /** Peeling the first pair off the formatted address. */
  lemma FormatMacStep(mac: string)
    requires |mac| >= 4
    ensures FormatMac(mac) == [LowerChar(mac[0]), LowerChar(mac[1]), ':'] + FormatMac(mac[2..])
  {
    var low := Lower(mac);
    assert Lower(mac[2..]) == low[2..];
    assert Pairs(low) == [low[..2]] + Pairs(low[2..]);
    assert low[..2] == [LowerChar(mac[0]), LowerChar(mac[1])];
  }

  lemma ShiftGroup(j: int)
    requires j >= 3
    ensures (j - 3) % 3 == j % 3 && (j - 3) / 3 == j / 3 - 1
  {
  }

  /** Two characters per pair, a colon between pairs: for 2n characters
      (n >= 1) the result has 3n - 1, every third one a colon and the rest
      the lower-cased input in order; fewer than two characters give "". */
  lemma {:induction false} FormatMacShape(mac: string)
    ensures |mac| < 2 ==> FormatMac(mac) == ""
    ensures |mac| >= 2 ==> |FormatMac(mac)| == 3 * (|mac| / 2) - 1
    ensures forall j :: 0 <= j < |FormatMac(mac)| ==>
      if j % 3 == 2 then FormatMac(mac)[j] == ':' else FormatMac(mac)[j] == LowerChar(mac[j - j / 3])
    decreases |mac|
  {
    var r := FormatMac(mac);
    if |mac| < 2 {
      assert Pairs(Lower(mac)) == [];
    } else if |mac| < 4 {
      var low := Lower(mac);
      assert Pairs(low) == [low[..2]];
      assert r == [LowerChar(mac[0]), LowerChar(mac[1])];
    } else {
      FormatMacStep(mac);
      var rest := FormatMac(mac[2..]);
      FormatMacShape(mac[2..]);
      forall j | 0 <= j < |r|
        ensures if j % 3 == 2 then r[j] == ':' else r[j] == LowerChar(mac[j - j / 3])
      {
        if j >= 3 {
          ShiftGroup(j);
          assert r[j] == rest[j - 3];
          assert mac[2..][(j - 3) - (j - 3) / 3] == mac[j - j / 3];
        }
      }
    }
  }

  /** The formatted address has no upper-case letter. */
  lemma FormatMacLowerCase(mac: string)
    ensures forall j :: 0 <= j < |FormatMac(mac)| ==> !('A' <= FormatMac(mac)[j] <= 'Z')
  {
    FormatMacShape(mac);
    var r := FormatMac(mac);
    forall j | 0 <= j < |r|
      ensures !('A' <= r[j] <= 'Z')
    {
      if j % 3 != 2 {
        assert r[j] == LowerChar(mac[j - j / 3]);
      }
    }
  }

  /** A string with its colons taken out. */
  function RemoveColons(s: string): string
  {
    if s == [] then []
    else (if s[0] == ':' then [] else [s[0]]) + RemoveColons(s[1..])
  }

  lemma {:induction false} RemoveColonsAppend(a: string, b: string)
    ensures RemoveColons(a + b) == RemoveColons(a) + RemoveColons(b)
    decreases |a|
  {
    if a == [] {
      assert a + b == b;
    } else {
      assert (a + b)[0] == a[0] && (a + b)[1..] == a[1..] + b;
      RemoveColonsAppend(a[1..], b);
    }
  }

  /** Taking the colons out of the formatted address gives the lower-cased
      input, minus a trailing odd character (and minus any colons it had). */
  lemma {:induction false} FormatMacRemoveColons(mac: string)
    ensures RemoveColons(FormatMac(mac)) == RemoveColons(Lower(mac[..|mac| / 2 * 2]))
    decreases |mac|
  {
    if |mac| < 2 {
      FormatMacShape(mac);
      assert mac[..|mac| / 2 * 2] == [];
    } else if |mac| < 4 {
      var low := Lower(mac);
      assert Pairs(low) == [low[..2]];
      assert mac[..|mac| / 2 * 2] == mac[..2];
      assert Lower(mac[..2]) == low[..2];
    } else {
      FormatMacStep(mac);
      var head := [LowerChar(mac[0]), LowerChar(mac[1])];
      var rest := FormatMac(mac[2..]);
      assert FormatMac(mac) == (head + [':']) + rest;
      RemoveColonsAppend(head + [':'], rest);
      RemoveColonsAppend(head, [':']);
      assert RemoveColons([':']) == [];
      FormatMacRemoveColons(mac[2..]);
      var n := |mac| / 2 * 2;
      assert mac[2..][..|mac[2..]| / 2 * 2] == mac[2..n];
      assert Lower(mac[..n]) == head + Lower(mac[2..n]);
      RemoveColonsAppend(head, Lower(mac[2..n]));
    }
  }

  /** An odd-length address loses its last character. */
  lemma {:induction false} FormatMacOddLength(mac: string)
    requires |mac| % 2 == 1
    ensures FormatMac(mac) == FormatMac(mac[..|mac| - 1])
    decreases |mac|
  {
    var m := mac[..|mac| - 1];
    if |mac| == 1 {
      FormatMacShape(mac);
      FormatMacShape(m);
    } else if |mac| == 3 {
      var low := Lower(mac);
      var lm := Lower(m);
      assert Pairs(low) == [low[..2]];
      assert Pairs(lm) == [lm[..2]];
      assert low[..2] == lm[..2];
    } else {
      FormatMacStep(mac);
      FormatMacStep(m);
      assert m[2..] == mac[2..][..|mac[2..]| - 1];
      FormatMacOddLength(mac[2..]);
    }
  }

  /** A six-character address formats as three lower-case pairs. */
  lemma FormatMacExample()
    ensures FormatMac("A4C138") == "a4:c1:38"
  {
    FormatMacStep("A4C138");
    FormatMacStep("C138");
    var low := Lower("38");
    assert Pairs(low) == [low[..2]];
  }

  /** One entry of `abstract_devices`; `type` is a reserved word here. */
  datatype RawDevice = RawDevice(kind: string, avid: int, name: string, friendlyMac: string)

  /** The record `http_load_devices` appends. */
  datatype DeviceRecord = DeviceRecord(avid: int, name: string, macAddress: string)

  function Project(raw: RawDevice): DeviceRecord
  {
    DeviceRecord(raw.avid, raw.name, FormatMac(raw.friendlyMac))
  }

  /** The device list for the raw entries, built front to back. */
  function DevicesOf(raws: seq<RawDevice>): (r: seq<DeviceRecord>)
    ensures |r| <= |raws|
  {
    if raws == [] then []
    else
      var last := raws[|raws| - 1];
      DevicesOf(raws[..|raws| - 1]) + (if last.kind == "device" then [Project(last)] else [])
  }

  /** The loop of `http_load_devices`. */
  method LoadDevices(raws: seq<RawDevice>) returns (devices: seq<DeviceRecord>)
    ensures devices == DevicesOf(raws)
  {
    devices := [];
    for i := 0 to |raws|
      invariant devices == DevicesOf(raws[..i])
    {
      assert raws[..i + 1][..i] == raws[..i];
      var raw := raws[i];
      if raw.kind != "device" {
        continue;
      }
      devices := devices + [Project(raw)];
    }
    assert raws[..|raws|] == raws;
  }

  /** The filter keeps relative order: it distributes over concatenation. */
  lemma {:induction false} DevicesOfAppend(a: seq<RawDevice>, b: seq<RawDevice>)
    ensures DevicesOf(a + b) == DevicesOf(a) + DevicesOf(b)
    decreases |b|
  {
    if b == [] {
      assert a + b == a;
    } else {
      var c := b[..|b| - 1];
      assert (a + b)[..|a + b| - 1] == a + c;
      assert (a + b)[|a + b| - 1] == b[|b| - 1];
      DevicesOfAppend(a, c);
    }
  }

  /** Every record in the list comes from a raw entry of type "device". */
  lemma {:induction false} DevicesOfSound(raws: seq<RawDevice>, d: DeviceRecord)
    requires d in DevicesOf(raws)
    ensures exists i :: 0 <= i < |raws| && raws[i].kind == "device" && d == Project(raws[i])
    decreases |raws|
  {
    var n := |raws| - 1;
    var init := raws[..n];
    if d in DevicesOf(init) {
      DevicesOfSound(init, d);
      var i :| 0 <= i < |init| && init[i].kind == "device" && d == Project(init[i]);
      assert raws[i] == init[i];
    } else {
      assert raws[n].kind == "device" && d == Project(raws[n]);
    }
  }

  /** Every raw entry of type "device" has its record in the list. */
  lemma {:induction false} DevicesOfComplete(raws: seq<RawDevice>, i: nat)
    requires i < |raws| && raws[i].kind == "device"
    ensures Project(raws[i]) in DevicesOf(raws)
    decreases |raws|
  {
    var n := |raws| - 1;
    if i < n {
      var init := raws[..n];
      assert init[i] == raws[i];
      DevicesOfComplete(init, i);
    }
  }

  /** A record is in the list exactly when some raw entry of type "device"
      projects to it. */
  lemma DevicesOfIff(raws: seq<RawDevice>, d: DeviceRecord)
    ensures d in DevicesOf(raws) <==> exists i :: 0 <= i < |raws| && raws[i].kind == "device" && d == Project(raws[i])
  {
    if d in DevicesOf(raws) {
      DevicesOfSound(raws, d);
    }
    if exists i :: 0 <= i < |raws| && raws[i].kind == "device" && d == Project(raws[i]) {
      var i :| 0 <= i < |raws| && raws[i].kind == "device" && d == Project(raws[i]);
      DevicesOfComplete(raws, i);
    }
  }

  /** One entry of `groups` and the record `http_load_groups` appends. */
  datatype RawGroup = RawGroup(avid: int, name: string)
  datatype GroupRecord = GroupRecord(avid: int, name: string)

  /** The loop of `http_load_groups`: every group, in order, as avid and name. */
  method LoadGroups(raws: seq<RawGroup>) returns (groups: seq<GroupRecord>)
    ensures |groups| == |raws|
    ensures forall k :: 0 <= k < |raws| ==> groups[k] == GroupRecord(raws[k].avid, raws[k].name)
  {
    groups := [];
    for i := 0 to |raws|
      invariant |groups| == i
      invariant forall k :: 0 <= k < i ==> groups[k] == GroupRecord(raws[k].avid, raws[k].name)
    {
      groups := groups + [GroupRecord(raws[i].avid, raws[i].name)];
    }
  }

  predicate EndsWithSlash(s: string)
  {
    |s| > 0 && s[|s| - 1] == '/'
  }

  /** The host normalisation of `http_list_devices`: the result ends in "/",
      and a "/" is appended exactly when the host did not end in one. */
  method NormalizeHost(host: string) returns (h: string)
    ensures EndsWithSlash(h)
    ensures EndsWithSlash(host) ==> h == host
    ensures !EndsWithSlash(host) ==> h == host + "/"
  {
    h := host;
    if !EndsWithSlash(h) {
      h := h + "/";
    }
  }

  /** Why no token could be read from a login response: no `credentials`
      (the explicit exception), or `credentials` that cannot be indexed by
      "auth_token" (the lookup raises). */
  datatype LoginError = InvalidCredentials | MalformedCredentials

  /** The credentials check and token lookup after the login request. */
  function AuthToken(response: map<string, Json>): (r: Result<Json, LoginError>)
    ensures r == Err(InvalidCredentials) <==> "credentials" !in response
    ensures r.Ok? <==> "credentials" in response && response["credentials"].JObject?
                       && "auth_token" in response["credentials"].fields
    ensures r.Ok? ==> r.value == response["credentials"].fields["auth_token"]
  {
    if "credentials" !in response then Err(InvalidCredentials)
    else
      var credentials := response["credentials"];
      if credentials.JObject? && "auth_token" in credentials.fields then Ok(credentials.fields["auth_token"])
      else Err(MalformedCredentials)
  }
}
