/** Request ids: the counter an id was minted from can be read off the id. */
module RequestIds {

  const MAX_BASE := 36

  function Digit(d: nat): (c: char)
    requires d < MAX_BASE
    ensures c != '_'
  {
    if d < 10 then ('0' as int + d) as char else ('a' as int + (d - 10)) as char
  }

  // The two bases ids are written in.
  predicate IsBase(base: nat) { base == 10 || base == 36 }

  function Head(n: nat, base: nat): nat {
    if base == 10 then n / 10 else n / 36
  }

  function Last(n: nat, base: nat): nat {
    if base == 10 then n % 10 else n % 36
  }

  function Snoc(q: nat, d: nat, base: nat): nat {
    if base == 10 then q * 10 + d else q * 36 + d
  }

  // `n.toString(base)`.
  function Text(n: nat, base: nat): (s: string)
    requires IsBase(base)
    ensures s != "" && '_' !in s
    decreases n
  {
    if n < base then [Digit(n)] else Text(Head(n, base), base) + [Digit(Last(n, base))]
  }

  function BridgeId(time: nat, counter: nat, rand: string): string {
    "req_" + Text(time, 36) + "_" + Text(counter, 36) + "_" + rand
  }

  function RpcId(counter: nat): string {
    "sq-" + Text(counter, 10)
  }

  function DigitValue(c: char): nat {
    if '0' <= c <= '9' then (c as int) - ('0' as int) else if 'a' <= c then 10 + (c as int) - ('a' as int) else 0
  }

  // `parseInt(s, base)` on such a text.
  function Value(s: string, base: nat): nat {
    if s == "" then 0 else Snoc(Value(s[..|s| - 1], base), DigitValue(s[|s| - 1]), base)
  }

  lemma {:induction false} ValueOfText(n: nat, base: nat)
    requires IsBase(base)
    ensures Value(Text(n, base), base) == n
    decreases n
  {
    var s := Text(n, base);
    if n < base {
      assert s[..0] == "" && Value(s[..0], base) == 0;
    } else {
      ValueOfText(Head(n, base), base);
      assert s[..|s| - 1] == Text(Head(n, base), base);
    }
  }

  // Texts without the separator are found again in front of it.
  lemma {:induction false} CutAtSeparator(a: string, b: string, x: string, y: string)
    requires '_' !in a && '_' !in b && a + "_" + x == b + "_" + y
    ensures a == b && x == y
  {
    var s := a + "_" + x;
    assert s[|a|] == '_' && s[|b|] == '_' && s[..|a|] == a && s[..|b|] == b;
    assert '_' !in s[..|a|] && '_' !in s[..|b|] && |a| == |b|;
    assert s[|a| + 1..] == x && s[|b| + 1..] == y;
  }

  // Two bridge requests never share an id, whatever the clock and the random part say.
  lemma BridgeIdsDiffer(time: nat, counter: nat, rand: string, time': nat, counter': nat, rand': string)
    requires BridgeId(time, counter, rand) == BridgeId(time', counter', rand')
    ensures counter == counter'
  {
    var t, c, t', c' := Text(time, 36), Text(counter, 36), Text(time', 36), Text(counter', 36);
    var id, id' := BridgeId(time, counter, rand), BridgeId(time', counter', rand');
    assert id[4..] == t + "_" + (c + "_" + rand) && id'[4..] == t' + "_" + (c' + "_" + rand');
    CutAtSeparator(t, t', c + "_" + rand, c' + "_" + rand');
    CutAtSeparator(c, c', rand, rand');
    ValueOfText(counter, 36);
    ValueOfText(counter', 36);
  }

  lemma RpcIdsDiffer(counter: nat, counter': nat)
    requires RpcId(counter) == RpcId(counter')
    ensures counter == counter'
  {
    assert RpcId(counter)[3..] == Text(counter, 10) && RpcId(counter')[3..] == Text(counter', 10);
    ValueOfText(counter, 10);
    ValueOfText(counter', 10);
  }
}
