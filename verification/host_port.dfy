/**
 * Splitting a transport address of the form "host:port" on its LAST colon
 * (`getIP` and `getPort` of the statistics table).  The last colon is used so
 * that IPv6 hosts, which contain colons themselves, keep them.
 *
 * Both helpers go through JavaScript's `String.prototype.substring`. When
 * there is no colon at all, `lastIndexOf` gives -1: `substring` clamps the
 * host's end index -1 to 0, so the host is empty, and the port starts at
 * -1 + 1 = 0, so it is the whole string.
 */
module HostPort {

  const Colon: char := ':'

  /** `String.prototype.lastIndexOf` for one character: its highest index in `s`, or -1. */
  function LastIndexOf(s: string, c: char): (r: int)
    ensures r == -1 <==> c !in s
    ensures r != -1 ==> 0 <= r < |s| && s[r] == c && c !in s[r + 1..]
  {
    if |s| == 0 then -1
    else if s[|s| - 1] == c then |s| - 1
    else
      var r := LastIndexOf(s[..|s| - 1], c);
      assert r != -1 ==> s[r + 1..] == s[..|s| - 1][r + 1..] + [s[|s| - 1]];
      assert s == s[..|s| - 1] + [s[|s| - 1]];
      r
  }

  /** Clamps an index into [0, len], as `substring` does with its arguments. */
  function Clamp(i: int, len: nat): (r: nat)
    ensures r <= len
    ensures 0 <= i <= len ==> r == i
  {
    if i < 0 then 0 else if i > len then len else i
  }

  /**
   * `String.prototype.substring(start, end)`: both indices are clamped into
   * the string, and swapped when the first exceeds the second.
   */
  function Substring(s: string, start: int, end: int): (r: string)
    ensures |r| <= |s|
  {
    var a := Clamp(start, |s|);
    var b := Clamp(end, |s|);
    if a <= b then s[a..b] else s[b..a]
  }

  /** The host part of "host:port": everything before the last colon. */
  function GetIP(value: string): (host: string)
    ensures Colon in value ==>
              |host| < |value| && value[..|host|] == host && value[|host|] == Colon
              && Colon !in value[|host| + 1..]
    ensures Colon !in value ==> host == ""
  {
    Substring(value, 0, LastIndexOf(value, Colon))
  }

  /** The port part of "host:port": everything after the last colon. */
  function GetPort(value: string): (port: string)
    ensures Colon !in port
    ensures Colon in value ==> |port| < |value| && value[|value| - |port| - 1] == Colon
    ensures |port| <= |value| && value[|value| - |port|..] == port
    ensures Colon !in value ==> port == value
  {
    var k := LastIndexOf(value, Colon);
    assert Substring(value, k + 1, |value|) == value[k + 1..];
    Substring(value, k + 1, |value|)
  }

  /** The two halves put back together with a colon give the input again. */
  lemma SplitRoundTrip(value: string)
    requires Colon in value
    ensures GetIP(value) + [Colon] + GetPort(value) == value
  {
    var k := LastIndexOf(value, Colon);
    assert GetIP(value) == value[..k];
    assert GetPort(value) == value[k + 1..];
    assert value == value[..k] + [value[k]] + value[k + 1..];
  }

  /** Joining a host and a colon-free port, then splitting, gives both back. */
  lemma {:induction false} JoinRoundTrip(host: string, port: string)
    requires Colon !in port
    ensures GetIP(host + [Colon] + port) == host
    ensures GetPort(host + [Colon] + port) == port
  {
    var v := host + [Colon] + port;
    var k := LastIndexOf(v, Colon);
    assert v[|host|] == Colon;
    assert Colon in v;
    assert k == |host|;
    assert v[..k] == host;
    assert v[k + 1..] == port;
  }

  /** Both halves are pieces of the input, so a character absent from it is absent from them. */
  lemma SplitOmits(value: string, c: char)
    requires c !in value
    ensures c !in GetIP(value) && c !in GetPort(value)
  {
    if Colon in value {
      SplitRoundTrip(value);
    }
  }
}
