/** Which objects the limits of unpack_limit let through, by their sizes and nesting alone. */
module Limits {
  import opened Options
  import opened Objects
  import opened Decoder

  // ---- sizes and nesting ----

  /** v and everything inside it, in reading order. */
  ghost function Parts(v: Object): seq<Object>
    decreases v
  {
    match v
    case Array(items) => [v] + ItemParts(items)
    case Map(pairs) => [v] + PairParts(pairs)
    case _ => [v]
  }

  ghost function ItemParts(vs: seq<Object>): seq<Object>
    decreases vs
  {
    if vs == [] then [] else Parts(vs[0]) + ItemParts(vs[1..])
  }

  ghost function PairParts(ps: seq<KV>): seq<Object>
    decreases ps
  {
    if ps == [] then [] else KVParts(ps[0]) + PairParts(ps[1..])
  }

  ghost function KVParts(p: KV): seq<Object>
    decreases p
  {
    Parts(p.key) + Parts(p.val)
  }

  function Max(a: nat, b: nat): nat {
    if a >= b then a else b
  }

  /** How many non-empty containers are open at the deepest place of v. */
  ghost function Nesting(v: Object): nat
    decreases v
  {
    match v
    case Array(items) => if items == [] then 0 else 1 + ItemsNesting(items)
    case Map(pairs) => if pairs == [] then 0 else 1 + PairsNesting(pairs)
    case _ => 0
  }

  ghost function ItemsNesting(vs: seq<Object>): nat
    decreases vs
  {
    if vs == [] then 0 else Max(Nesting(vs[0]), ItemsNesting(vs[1..]))
  }

  ghost function PairsNesting(ps: seq<KV>): nat
    decreases ps
  {
    if ps == [] then 0 else Max(KVNesting(ps[0]), PairsNesting(ps[1..]))
  }

  ghost function KVNesting(p: KV): nat
    decreases p
  {
    Max(Nesting(p.key), Nesting(p.val))
  }

  /** The part p is larger than the limit x allows; a blob that is referenced may have any size. */
  ghost predicate Over(c: Config, p: Object, x: Overflow) {
    match x
    case StrSize => p.Str? && |p.data| > c.limit.str && !c.refers(StrBlob, |p.data|)
    case BinSize => p.Bin? && |p.data| > c.limit.bin && !c.refers(BinBlob, |p.data|)
    case ExtSize => p.Ext? && 1 + |p.data| > c.limit.ext && !c.refers(ExtBlob, 1 + |p.data|)
    case ArraySize => p.Array? && |p.items| > c.limit.arr
    case MapSize => p.Map? && |p.pairs| > c.limit.map_
    case Depth => false
  }

  ghost predicate SizeFits(c: Config, p: Object) {
    forall x :: !Over(c, p, x)
  }

  ghost predicate SizesFit(c: Config, ps: seq<Object>) {
    forall p | p in ps :: SizeFits(c, p)
  }

  /** Inside `depth` open containers, `nesting` more can be opened. */
  ghost predicate DepthFits(c: Config, nesting: nat, depth: nat) {
    nesting == 0 || depth + nesting <= c.limit.depth
  }

  /** v fits all limits inside `depth` open containers. */
  ghost predicate Fits(c: Config, v: Object, depth: nat) {
    SizesFit(c, Parts(v)) && DepthFits(c, Nesting(v), depth)
  }

  /** v breaks limit x there. */
  ghost predicate Breaks(c: Config, v: Object, depth: nat, x: Overflow) {
    BrokenBy(c, Parts(v), Nesting(v), depth, x)
  }

  ghost predicate BrokenBy(c: Config, parts: seq<Object>, nesting: nat, depth: nat, x: Overflow) {
    if x.Depth? then !DepthFits(c, nesting, depth) else exists p :: p in parts && Over(c, p, x)
  }

  // ---- the first limit that is broken ----

  /** The first limit that v breaks in reading order, inside `depth` open containers. */
  ghost function Verdict(c: Config, v: Object, depth: nat): Option<Overflow>
    decreases v
  {
    match v
    case Str(data) => BlobVerdict(c, StrBlob, |data|)
    case Bin(data) => BlobVerdict(c, BinBlob, |data|)
    case Ext(_, data) => BlobVerdict(c, ExtBlob, 1 + |data|)
    case Array(items) => First(OpenVerdict(c, false, |items|, depth), ItemsVerdict(c, items, depth + 1))
    case Map(pairs) => First(OpenVerdict(c, true, |pairs|, depth), PairsVerdict(c, pairs, depth + 1))
    case _ => None
  }

  function First(a: Option<Overflow>, b: Option<Overflow>): Option<Overflow> {
    if a.Some? then a else b
  }

  ghost function ItemsVerdict(c: Config, vs: seq<Object>, depth: nat): Option<Overflow>
    decreases vs
  {
    if vs == [] then None else First(Verdict(c, vs[0], depth), ItemsVerdict(c, vs[1..], depth))
  }

  ghost function PairsVerdict(c: Config, ps: seq<KV>, depth: nat): Option<Overflow>
    decreases ps
  {
    if ps == [] then None else First(KVVerdict(c, ps[0], depth), PairsVerdict(c, ps[1..], depth))
  }

  ghost function KVVerdict(c: Config, p: KV, depth: nat): Option<Overflow>
    decreases p
  {
    First(Verdict(c, p.key, depth), Verdict(c, p.val, depth))
  }

  /** The verdict on parts read inside `depth` open containers: none if they fit, else a limit they break. */
  ghost predicate Judges(verdict: Option<Overflow>, c: Config, parts: seq<Object>, nesting: nat, depth: nat) {
    match verdict
    case None => SizesFit(c, parts) && DepthFits(c, nesting, depth)
    case Some(x) => BrokenBy(c, parts, nesting, depth, x)
  }

  lemma JudgesBoth(a: Option<Overflow>, b: Option<Overflow>, c: Config, ps: seq<Object>, qs: seq<Object>,
                   m: nat, n: nat, depth: nat)
    requires Judges(a, c, ps, m, depth) && Judges(b, c, qs, n, depth)
    ensures Judges(First(a, b), c, ps + qs, Max(m, n), depth)
  {
    hide SizeFits, Over;
  }

  /** A container around parts that are judged one level deeper. */
  lemma JudgesAround(c: Config, v: Object, size: nat, inner: Option<Overflow>, parts: seq<Object>,
                     nesting: nat, depth: nat)
    requires (v.Array? && size == |v.items|) || (v.Map? && size == |v.pairs|)
    requires Judges(inner, c, parts, nesting, depth + 1) && (size == 0 ==> inner == None && nesting == 0)
    ensures Judges(First(OpenVerdict(c, v.Map?, size, depth), inner), c, [v] + parts,
                   if size == 0 then 0 else 1 + nesting, depth)
  {
    var open := OpenVerdict(c, v.Map?, size, depth);
    if open == Some(ArraySize) || open == Some(MapSize) {
      assert v in [v] + parts && Over(c, v, open.value);
    } else if open == None && inner.Some? && !inner.value.Depth? {
      var p :| p in parts && Over(c, p, inner.value);
      assert p in [v] + parts;
    }
  }

  /** No verdict exactly on what fits; a verdict names a limit that is broken. */
  lemma {:induction false} VerdictJudges(c: Config, v: Object, depth: nat)
    ensures Judges(Verdict(c, v, depth), c, Parts(v), Nesting(v), depth)
    decreases v
  {
    if v.Array? {
      ItemsJudged(c, v.items, depth + 1);
      JudgesAround(c, v, |v.items|, ItemsVerdict(c, v.items, depth + 1), ItemParts(v.items),
        ItemsNesting(v.items), depth);
    } else if v.Map? {
      PairsJudged(c, v.pairs, depth + 1);
      JudgesAround(c, v, |v.pairs|, PairsVerdict(c, v.pairs, depth + 1), PairParts(v.pairs),
        PairsNesting(v.pairs), depth);
    } else if Verdict(c, v, depth).Some? {
      assert v in Parts(v) && Over(c, v, Verdict(c, v, depth).value);
    }
  }

  lemma {:induction false} ItemsJudged(c: Config, vs: seq<Object>, depth: nat)
    ensures Judges(ItemsVerdict(c, vs, depth), c, ItemParts(vs), ItemsNesting(vs), depth)
    decreases vs
  {
    hide Judges, Verdict, Parts, Nesting;
    if vs == [] {
      NothingJudged(c, depth);
    } else {
      VerdictJudges(c, vs[0], depth);
      ItemsJudged(c, vs[1..], depth);
      JudgesBoth(Verdict(c, vs[0], depth), ItemsVerdict(c, vs[1..], depth), c, Parts(vs[0]), ItemParts(vs[1..]),
        Nesting(vs[0]), ItemsNesting(vs[1..]), depth);
    }
  }

  lemma {:induction false} PairsJudged(c: Config, ps: seq<KV>, depth: nat)
    ensures Judges(PairsVerdict(c, ps, depth), c, PairParts(ps), PairsNesting(ps), depth)
    decreases ps
  {
    hide Judges, KVVerdict, KVParts, KVNesting;
    if ps == [] {
      NothingJudged(c, depth);
    } else {
      KVJudged(c, ps[0], depth);
      PairsJudged(c, ps[1..], depth);
      JudgesBoth(KVVerdict(c, ps[0], depth), PairsVerdict(c, ps[1..], depth), c, KVParts(ps[0]), PairParts(ps[1..]),
        KVNesting(ps[0]), PairsNesting(ps[1..]), depth);
    }
  }

  lemma {:induction false} KVJudged(c: Config, p: KV, depth: nat)
    ensures Judges(KVVerdict(c, p, depth), c, KVParts(p), KVNesting(p), depth)
    decreases p
  {
    hide Judges, Verdict, Parts, Nesting;
    VerdictJudges(c, p.key, depth);
    VerdictJudges(c, p.val, depth);
    JudgesBoth(Verdict(c, p.key, depth), Verdict(c, p.val, depth), c, Parts(p.key), Parts(p.val),
      Nesting(p.key), Nesting(p.val), depth);
  }

  lemma NothingJudged(c: Config, depth: nat)
    ensures Judges(None, c, [], 0, depth)
  {
  }

  lemma FitsOrBreaks(c: Config, v: Object, depth: nat, x: Overflow)
    requires Fits(c, v, depth)
    ensures !Breaks(c, v, depth, x)
  {
  }

  /** The size of v itself is looked at before its nesting and its contents. */
  lemma OwnSizeFirst(c: Config, v: Object, depth: nat)
    ensures forall x | Over(c, v, x) :: Verdict(c, v, depth) == Some(x)
  {
  }

  lemma VerdictIff(c: Config, v: Object, depth: nat)
    ensures Verdict(c, v, depth).None? <==> Fits(c, v, depth)
    ensures Verdict(c, v, depth).Some? ==> Breaks(c, v, depth, Verdict(c, v, depth).value)
    ensures forall x | Over(c, v, x) :: Verdict(c, v, depth) == Some(x)
  {
    OwnSizeFirst(c, v, depth);
    hide Verdict, Parts, Nesting, SizesFit, DepthFits, BrokenBy;
    VerdictJudges(c, v, depth);
    if Fits(c, v, depth) && Verdict(c, v, depth).Some? {
      FitsOrBreaks(c, v, depth, Verdict(c, v, depth).value);
      assert false;
    }
  }

  // ---- a map as the list of its keys and values ----

  lemma {:induction false} FlatVerdict(c: Config, ps: seq<KV>, depth: nat)
    ensures ItemsVerdict(c, Flatten(ps), depth) == PairsVerdict(c, ps, depth)
    decreases ps
  {
    hide Verdict;
    if ps != [] {
      FlatVerdict(c, ps[1..], depth);
      var vs := Flatten(ps);
      assert vs[1..][0] == ps[0].val && vs[1..][1..] == Flatten(ps[1..]);
      assert ItemsVerdict(c, vs[1..], depth)
          == First(Verdict(c, ps[0].val, depth), ItemsVerdict(c, Flatten(ps[1..]), depth));
    }
  }
}
