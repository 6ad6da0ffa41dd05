/** Wire frames `{ p, m, a }`, the rule that fuses two of them, and their JSON-like argument values. */
module PortFrames {
  import opened Wrappers
  import opened Coalescing

  datatype Json =
    | Undefined
    | Bool(b: bool)
    | Num(n: int)
    | Str(s: string)
    | List(items: seq<Json>)
    | Obj(fields: map<string, Json>)

  datatype Port = Chat | Exec | Scratchpad | Session

  datatype PortFrame = PortFrame(p: Port, m: string, a: seq<Json>)

  // Reading past the end of an argument list yields `undefined`.
  function Arg(a: seq<Json>, i: nat): Json {
    if i < |a| then a[i] else Undefined
  }

  function Field(j: Json, key: string): Json {
    if j.Obj? && key in j.fields then j.fields[key] else Undefined
  }

  function SetField(j: Json, key: string, v: Json): Json {
    if j.Obj? then Obj(j.fields[key := v]) else j
  }

  predicate Truthy(j: Json) {
    match j
    case Undefined => false
    case Bool(b) => b
    case Num(n) => n != 0
    case Str(s) => s != ""
    case _ => true
  }

  // The values a condition takes for false.
  lemma FalsyExactly(j: Json)
    ensures !Truthy(j) <==> j == Undefined || j == Bool(false) || j == Num(0) || j == Str("")
  {
  }

  // First object of a list with the given id, or its length when there is none.
  function IndexOfId(items: seq<Json>, id: Json): (i: nat)
    ensures i <= |items|
    ensures i < |items| ==> Field(items[i], "id") == id
    ensures forall k :: 0 <= k < i ==> Field(items[k], "id") != id
  {
    if items == [] || Field(items[0], "id") == id then 0
    else 1 + IndexOfId(items[1..], id)
  }

  predicate IsAppendMethod(m: string) { m == "appendText" }

  predicate IsReplaceMethod(m: string) { m == "appendThinking" }

  predicate IsMergeable(f: PortFrame) {
    f.p == Chat && (IsAppendMethod(f.m) || IsReplaceMethod(f.m))
  }

  predicate SameTarget(a: PortFrame, b: PortFrame) {
    Arg(a.a, 0) == Arg(b.a, 0) && Arg(a.a, 2) == Arg(b.a, 2)
  }

  predicate CanMergeInto(pending: PortFrame, next: PortFrame) {
    IsMergeable(pending) && IsMergeable(next) && pending.m == next.m && SameTarget(pending, next)
  }

  // What the port interface guarantees of its callers: a token is a string.
  predicate WellFormed(f: PortFrame) {
    IsMergeable(f) ==> Arg(f.a, 1).Str?
  }

  // None: merging throws on a token that is not a string.
  function MergeInto(pending: PortFrame, next: PortFrame): Option<PortFrame> {
    var (x, y) := (Arg(pending.a, 1), Arg(next.a, 1));
    if !x.Str? || !y.Str? then None
    else
      var merged := if IsAppendMethod(pending.m) then Str(x.s + y.s) else y;
      Some(PortFrame(pending.p, pending.m, [Arg(pending.a, 0), merged, Arg(pending.a, 2)]))
  }

  function Fuse(a: PortFrame, b: PortFrame): Option<PortFrame> {
    if CanMergeInto(a, b) then MergeInto(a, b) else None
  }

  // Two frames fuse if and only if both stream text, or both thinking, to the same message
  // of the same conversation; the tokens are put together, of thinking the later one counts.
  lemma FusesExactly(a: PortFrame, b: PortFrame)
    ensures Fuse(a, b).Some? <==>
              && a.p == Chat && b.p == Chat && a.m == b.m && (a.m == "appendText" || a.m == "appendThinking")
              && Arg(a.a, 0) == Arg(b.a, 0) && Arg(a.a, 2) == Arg(b.a, 2) && Arg(a.a, 1).Str? && Arg(b.a, 1).Str?
    ensures Fuse(a, b).Some? ==>
              var token := if a.m == "appendText" then Str(Arg(a.a, 1).s + Arg(b.a, 1).s) else Arg(b.a, 1);
              Fuse(a, b).value == PortFrame(Chat, a.m, [Arg(a.a, 0), token, Arg(a.a, 2)])
  {
  }

  lemma FuseAssociative(a: PortFrame, b: PortFrame, c: PortFrame)
    requires Fuse(a, b).Some? && Fuse(b, c).Some?
    ensures Fuse(Fuse(a, b).value, c).Some?
    ensures Fuse(a, Fuse(b, c).value) == Fuse(Fuse(a, b).value, c)
  {
    var x, y, z := Arg(a.a, 1).s, Arg(b.a, 1).s, Arg(c.a, 1).s;
    assert x + (y + z) == (x + y) + z;
  }

  lemma FuseLawful()
    ensures Lawful(Fuse)
  {
    forall a, b, c | Fuse(a, b).Some? && Fuse(b, c).Some?
      ensures && Fuse(Fuse(a, b).value, c).Some?
              && Fuse(a, Fuse(b, c).value) == Fuse(Fuse(a, b).value, c)
    {
      FuseAssociative(a, b, c);
    }
  }

  lemma FuseLast(x: seq<PortFrame>, a: PortFrame, b: PortFrame)
    requires Fuse(a, b).Some?
    ensures Canon(Fuse, x + [Fuse(a, b).value]) == Canon(Fuse, x + [a, b])
  {
    FuseLawful();
    CanonFuseLast(Fuse, x, a, b);
  }
}
