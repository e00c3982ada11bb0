/** Decimal rendering of numbers, as `fmt` and `strconv` produce it, and the keys built from it. */
module Decimal {

  const DIGITS: string := "0123456789"

  function Render(n: nat): (s: string)
    ensures s != "" && forall k :: 0 <= k < |s| ==> '0' <= s[k] <= '9'
  {
    if n < 10 then [DIGITS[n]] else Render(n / 10) + [DIGITS[n % 10]]
  }

  /** The number that a string of decimal digits denotes. */
  function Value(s: string): int {
    if s == "" then 0 else 10 * Value(s[..|s| - 1]) + (s[|s| - 1] as int - '0' as int)
  }

  lemma {:induction false} ValueOfRender(n: nat)
    ensures Value(Render(n)) == n
  {
    if 10 <= n {
      ValueOfRender(n / 10);
      LastDigit(n);
    } else {
      assert Render(n)[..0] == "" && DIGITS[n] as int == '0' as int + n;
    }
  }

  lemma RenderIsInjective(m: nat, n: nat)
    requires Render(m) == Render(n)
    ensures m == n
  {
    ValueOfRender(m);
    ValueOfRender(n);
  }

  lemma LastDigit(n: nat)
    requires 10 <= n
    ensures var s := Render(n);
            s[..|s| - 1] == Render(n / 10) && s[|s| - 1] as int == '0' as int + n % 10
  {
  }

  /** "addr:port", where the address may itself hold colons. */
  function TunnelKey(addr: string, port: nat): string { addr + ":" + Render(port) }

  lemma LastColon(addr: string, port: nat)
    ensures var s := TunnelKey(addr, port);
            |addr| < |s| && s[|addr|] == ':' && forall k :: |addr| < k < |s| ==> s[k] != ':'
  {
  }

  lemma TunnelKeyIsInjective(a: string, m: nat, b: string, n: nat)
    requires TunnelKey(a, m) == TunnelKey(b, n)
    ensures a == b && m == n
  {
    var s, t := TunnelKey(a, m), TunnelKey(b, n);
    LastColon(a, m);
    LastColon(b, n);
    assert |a| == |b|;
    assert a == s[..|a|] && b == t[..|b|];
    assert Render(m) == s[|a| + 1..] && Render(n) == t[|b| + 1..];
    RenderIsInjective(m, n);
  }

  /** The names under which a forward registers its two streams. */
  datatype StreamName = ErrorKey(id: nat) | DataKey(id: nat)

  /** The string a name stands for: the request number with a suffix. */
  function RenderName(name: StreamName): string {
    match name
    case ErrorKey(id) => Render(id) + "-error"
    case DataKey(id) => Render(id) + "-data"
  }

  lemma RenderNameIsInjective(m: StreamName, n: StreamName)
    requires RenderName(m) == RenderName(n)
    ensures m == n
  {
    var s, t := RenderName(m), RenderName(n);
    assert s[|s| - 1] == if m.ErrorKey? then 'r' else 'a';
    assert t[|t| - 1] == if n.ErrorKey? then 'r' else 'a';
    var k := if m.ErrorKey? then 6 else 5;
    assert Render(m.id) == s[..|s| - k] == t[..|t| - k] == Render(n.id);
    RenderIsInjective(m.id, n.id);
  }
}
