/**
 The theory both coalescers rest on. A stream of frames is merged by a partial
 operation `join` that either fuses two neighbours or refuses. `Canon` is the
 stream with every maximal run of neighbours fused, so two streams with the same
 `Canon` are the same stream cut at different places.
 */
module Coalescing {
  import opened Wrappers

  type Join<!F> = (F, F) -> Option<F>

  // Fusing is associative, and fusing on the right never opens a new fusion on the left.
  ghost predicate Lawful<F(!new)>(join: Join<F>) {
    && (forall a, b, c :: join(a, b).Some? && join(b, c).Some? ==>
                            && join(join(a, b).value, c).Some?
                            && join(a, join(b, c).value) == join(join(a, b).value, c))
    && (forall a, b, c :: join(a, b).None? && join(b, c).Some? ==> join(a, join(b, c).value).None?)
  }

  // The operation fuses exactly the pairs whose fused effect equals the two effects in order.
  ghost predicate Respects<F(!new), S(!new)>(join: Join<F>, apply: (S, F) -> S) {
    forall s, a, b :: join(a, b).Some? ==> apply(s, join(a, b).value) == apply(apply(s, a), b)
  }

  function Append<F>(join: Join<F>, acc: seq<F>, f: F): seq<F> {
    if acc != [] && join(acc[|acc| - 1], f).Some?
    then acc[..|acc| - 1] + [join(acc[|acc| - 1], f).value]
    else acc + [f]
  }

  function Canon<F>(join: Join<F>, s: seq<F>): seq<F> {
    if s == [] then [] else Append(join, Canon(join, s[..|s| - 1]), s[|s| - 1])
  }

  function ApplyAll<F, S>(apply: (S, F) -> S, s: S, frames: seq<F>): S {
    if frames == [] then s else apply(ApplyAll(apply, s, frames[..|frames| - 1]), frames[|frames| - 1])
  }

  lemma CanonSnoc<F>(join: Join<F>, s: seq<F>, f: F)
    ensures Canon(join, s + [f]) == Append(join, Canon(join, s), f)
  {
    assert (s + [f])[..|s|] == s;
  }

  // Equal canonical streams stay equal when both go on with the same frame.
  lemma CanonCongruent<F>(join: Join<F>, x: seq<F>, y: seq<F>, f: F)
    requires Canon(join, x) == Canon(join, y)
    ensures Canon(join, x + [f]) == Canon(join, y + [f])
  {
    CanonSnoc(join, x, f);
    CanonSnoc(join, y, f);
  }

  lemma AppendFused<F(!new)>(join: Join<F>, c: seq<F>, a: F, b: F)
    requires Lawful(join) && join(a, b).Some?
    ensures Append(join, c, join(a, b).value) == Append(join, Append(join, c, a), b)
  {
    if c != [] {
      var last, ab := c[|c| - 1], join(a, b).value;
      if join(last, a).Some? {
        assert join(join(last, a).value, b).Some?;
        assert join(last, ab) == join(join(last, a).value, b);
      } else {
        assert join(last, ab).None?;
      }
    }
  }

  // Fusing the last two frames of a stream does not change its canonical form.
  lemma CanonFuseLast<F(!new)>(join: Join<F>, x: seq<F>, a: F, b: F)
    requires Lawful(join) && join(a, b).Some?
    ensures Canon(join, x + [join(a, b).value]) == Canon(join, x + [a, b])
  {
    CanonSnoc(join, x, join(a, b).value);
    CanonSnoc(join, x, a);
    CanonSnoc(join, x + [a], b);
    assert x + [a, b] == (x + [a]) + [b];
    AppendFused(join, Canon(join, x), a, b);
  }

  // What the canonical form `acc` of a stream becomes when the stream goes on with z.
  function AppendAll<F>(join: Join<F>, acc: seq<F>, z: seq<F>): seq<F> {
    if z == [] then acc else Append(join, AppendAll(join, acc, z[..|z| - 1]), z[|z| - 1])
  }

  lemma AppendAllSnoc<F>(join: Join<F>, acc: seq<F>, z: seq<F>, f: F)
    ensures AppendAll(join, acc, z + [f]) == Append(join, AppendAll(join, acc, z), f)
  {
    assert (z + [f])[..|z|] == z;
  }

  lemma CanonConcatSnoc<F>(join: Join<F>, x: seq<F>, z: seq<F>, f: F)
    requires Canon(join, x + z) == AppendAll(join, Canon(join, x), z)
    ensures Canon(join, x + (z + [f])) == AppendAll(join, Canon(join, x), z + [f])
  {
    CanonSnoc(join, x + z, f);
    AppendAllSnoc(join, Canon(join, x), z, f);
    assert x + (z + [f]) == (x + z) + [f];
  }

  lemma {:induction false} CanonConcat<F>(join: Join<F>, x: seq<F>, z: seq<F>)
    ensures Canon(join, x + z) == AppendAll(join, Canon(join, x), z)
  {
    if z == [] {
      assert x + z == x;
    } else {
      CanonConcat(join, x, z[..|z| - 1]);
      CanonConcatSnoc(join, x, z[..|z| - 1], z[|z| - 1]);
      assert z == z[..|z| - 1] + [z[|z| - 1]];
    }
  }

  // Nor does fusing two neighbours anywhere else.
  lemma CanonFuseAnywhere<F(!new)>(join: Join<F>, x: seq<F>, a: F, b: F, y: seq<F>)
    requires Lawful(join) && join(a, b).Some?
    ensures Canon(join, x + [join(a, b).value] + y) == Canon(join, x + [a, b] + y)
  {
    CanonFuseLast(join, x, a, b);
    CanonConcat(join, x + [join(a, b).value], y);
    CanonConcat(join, x + [a, b], y);
  }

  ghost predicate Irreducible<F>(join: Join<F>, c: seq<F>) {
    forall i, j :: 0 <= i && i + 1 == j < |c| ==> join(c[i], c[j]).None?
  }

  // In a canonical stream no two neighbours can still be fused.
  lemma {:induction false} CanonIrreducible<F(!new)>(join: Join<F>, s: seq<F>)
    requires Lawful(join)
    ensures Irreducible(join, Canon(join, s))
  {
    if s != [] {
      var init, f := s[..|s| - 1], s[|s| - 1];
      CanonIrreducible(join, init);
      var p, c := Canon(join, init), Canon(join, s);
      forall i, j | 0 <= i && i + 1 == j < |c|
        ensures join(c[i], c[j]).None?
      {
        if j < |p| {
          assert join(p[i], p[j]).None?;
        }
      }
    }
  }

  // A stream nothing can be fused in is its own canonical form.
  lemma {:induction false} CanonOfIrreducible<F>(join: Join<F>, c: seq<F>)
    requires Irreducible(join, c)
    ensures Canon(join, c) == c
  {
    if c != [] {
      var init, f := c[..|c| - 1], c[|c| - 1];
      assert c == init + [f];
      forall i, j | 0 <= i && i + 1 == j < |init|
        ensures join(init[i], init[j]).None?
      {
        assert join(c[i], c[j]).None?;
      }
      CanonOfIrreducible(join, init);
      if init != [] {
        assert join(c[|c| - 2], c[|c| - 1]).None?;
      }
    }
  }

  // One fusing step, at place i.
  ghost predicate FusesTo<F>(join: Join<F>, s: seq<F>, t: seq<F>, i: nat) {
    && i + 1 < |s| && join(s[i], s[i + 1]).Some?
    && t == s[..i] + [join(s[i], s[i + 1]).value] + s[i + 2..]
  }

  lemma FusingKeepsCanon<F(!new)>(join: Join<F>, s: seq<F>, t: seq<F>, i: nat)
    requires Lawful(join) && FusesTo(join, s, t, i)
    ensures Canon(join, t) == Canon(join, s)
  {
    CanonFuseAnywhere(join, s[..i], s[i], s[i + 1], s[i + 2..]);
    assert s == s[..i] + [s[i], s[i + 1]] + s[i + 2..];
  }

  // A series of streams, each one fusing step at the given place away from the one before.
  ghost predicate Fusings<F>(join: Join<F>, streams: seq<seq<F>>, places: seq<nat>) {
    && |streams| == |places| + 1
    && forall k :: 0 <= k < |places| ==> FusesTo(join, streams[k], streams[k + 1], places[k])
  }

  lemma {:induction false} FusingsKeepCanon<F(!new)>(join: Join<F>, streams: seq<seq<F>>, places: seq<nat>)
    requires Lawful(join) && Fusings(join, streams, places)
    ensures Canon(join, streams[|places|]) == Canon(join, streams[0])
  {
    if places != [] {
      var n := |places| - 1;
      FusingsKeepCanon(join, streams[..n + 1], places[..n]);
      FusingKeepsCanon(join, streams[n], streams[n + 1], places[n]);
    }
  }

  // Wherever and in whatever order neighbours are fused, once no two are left that fuse
  // the stream is the canonical one: it depends only on what was fused, not on how.
  lemma FusingIsConfluent<F(!new)>(join: Join<F>, streams: seq<seq<F>>, places: seq<nat>)
    requires Lawful(join) && Fusings(join, streams, places)
    ensures Irreducible(join, streams[|places|]) <==> streams[|places|] == Canon(join, streams[0])
  {
    FusingsKeepCanon(join, streams, places);
    CanonIrreducible(join, streams[0]);
    if Irreducible(join, streams[|places|]) {
      CanonOfIrreducible(join, streams[|places|]);
    }
  }

  lemma ApplyAllSnoc<F, S>(apply: (S, F) -> S, s: S, frames: seq<F>, f: F)
    ensures ApplyAll(apply, s, frames + [f]) == apply(ApplyAll(apply, s, frames), f)
  {
    assert (frames + [f])[..|frames|] == frames;
  }

  // A canonical stream means what the stream it came from means.
  lemma {:induction false} CanonMeaning<F(!new), S(!new)>(join: Join<F>, apply: (S, F) -> S, s: S, frames: seq<F>)
    requires Respects(join, apply)
    ensures ApplyAll(apply, s, Canon(join, frames)) == ApplyAll(apply, s, frames)
  {
    if frames != [] {
      var init, f := frames[..|frames| - 1], frames[|frames| - 1];
      CanonMeaning(join, apply, s, init);
      var c := Canon(join, init);
      if c != [] && join(c[|c| - 1], f).Some? {
        var last := c[|c| - 1];
        ApplyAllSnoc(apply, s, c[..|c| - 1], join(last, f).value);
        ApplyAllSnoc(apply, s, c[..|c| - 1], last);
        assert c[..|c| - 1] + [last] == c;
        var before := ApplyAll(apply, s, c[..|c| - 1]);
        assert apply(before, join(last, f).value) == apply(apply(before, last), f);
      } else {
        ApplyAllSnoc(apply, s, c, f);
      }
    }
  }
}
