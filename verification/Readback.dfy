/** What a ground type says about itself, read from its handle: the registry entry it indexes, the key its id was
    minted from. It is the other end of the read-only denotation, which searches for handles by their contents. */
module Readback {
  import opened Types
  import opened Worlds
  import opened Invariant
  import opened History

  /** `n` is the length `l` spells: itself, or what stands at the variable's own position. */
  predicate SpellsLen(n: nat, l: Len, lens: seq<nat>) {
    l == Known(n) || (l.LenVar? && l.v < |lens| && lens[l.v] == n)
  }

  predicate SpellsLens(ns: seq<nat>, ls: seq<Len>, lens: seq<nat>) {
    |ns| == |ls| && forall j :: 0 <= j < |ls| ==> SpellsLen(ns[j], ls[j], lens)
  }

  /** `t` is the type minted for the `i`-th key, an application of header `idx`. */
  predicate MintedFor(s: Side, t: Type, i: nat, idx: nat, modId: nat) {
    i < |s.keys| && i < |s.resolved| && s.resolved[i] == t && s.keys[i].idx == idx && s.keys[i].modId == modId
  }

  /** The handle `t` reads as `p` at `args`/`lens`. */
  ghost predicate ReadsAs(w: World, t: Type, p: PolyType<Type>, args: seq<Type>, lens: seq<nat>)
    decreases p, 0
  {
    match p
    case Concrete(c) => t == c
    case Var(v) => v < |args| && t == args[v]
    case PArray(elem, len) =>
      && t.Array? && t.id < |w.shapes.arrays| && SpellsLen(w.shapes.arrays[t.id].count, len, lens)
      && ReadsAs(w, w.shapes.arrays[t.id].elem, elem, args, lens)
    case PRef(referent, mutable) =>
      && t.Ref? && t.mutable == mutable && t.id < |w.shapes.refs| && w.shapes.refs[t.id].mutable == mutable
      && ReadsAs(w, w.shapes.refs[t.id].target, referent, args, lens)
    case PCell(payload) =>
      t.Cell? && t.id < |w.shapes.cells| && ReadsAs(w, w.shapes.cells[t.id], payload, args, lens)
    case PGeneric(e, idx, modId, ps, ls) => 
      exists i: nat :: MintedFor(w.Of(e), t, i, idx, modId) && SpellsLens(w.Of(e).keys[i].lens, ls, lens) &&
        ReadAsAll(w, w.Of(e).keys[i].args, ps, args, lens)
    case PApp(head, ps) =>
      && head < |args|
      && if args[head].Ctor? then
           var s := w.Of(args[head].isEnum);
           exists i: nat :: MintedFor(s, t, i, args[head].idx, args[head].modId) && s.keys[i].lens == [] &&
             ReadAsAll(w, s.keys[i].args, ps, args, lens)
         else
           t == args[head] && exists ts :: ReadAsAll(w, ts, ps, args, lens)
    case PQuot(ins, outs, inline) =>
      && t.Quot? && t.flavour == (if inline then Inline else Plain)
      && ReadAsAll(w, t.ins, ins, args, lens) && ReadAsAll(w, t.outs, outs, args, lens)
    case PQuotLit => false
    case PVariant(_, _, _, _, _) => false
  }

  ghost predicate ReadAsAll(w: World, ts: seq<Type>, ps: seq<PolyType<Type>>, args: seq<Type>, lens: seq<nat>)
    decreases ps, 0
  {
    |ts| == |ps| && forall j :: 0 <= j < |ps| ==> ReadsAs(w, ts[j], ps[j], args, lens)
  }

  lemma LenIsSpelled(n: nat, l: Len, lens: seq<nat>)
    ensures LenValue(l, lens) == Some(n) <==> SpellsLen(n, l, lens)
  {
  }

  lemma LensAreSpelled(ns: seq<nat>, ls: seq<Len>, lens: seq<nat>)
    ensures LenValues(ls, lens) == Some(ns) <==> SpellsLens(ns, ls, lens)
  {
    forall j | 0 <= j < |ls| && j < |ns|
      ensures LenValue(ls[j], lens) == Some(ns[j]) <==> SpellsLen(ns[j], ls[j], lens)
    {
      LenIsSpelled(ns[j], ls[j], lens);
    }
    hide LenValue, SpellsLen;
    if SpellsLens(ns, ls, lens) { LenValuesIs(ls, lens, ns); }
  }

  /** Searching the memo for a key finds exactly the type minted for it. */
  lemma LookupFinds(w: World, open: set<App>, e: bool, k: Key, t: Type)
    requires Inv(w, open)
    ensures Lookup(w, App(e, k)) == Some(t) <==>
              exists i :: 0 <= i < |w.Of(e).keys| && i < |w.Of(e).resolved| && w.Of(e).keys[i] == k &&
                w.Of(e).resolved[i] == t
  {
    var s := w.Of(e);
    assert Distinct(s.keys) by {
      hide KeySettled, DeferredOk, HeadersOk, ShapesOk;
      assert SideOk(w, e, open);
    }
    hide Inv;
    if i :| 0 <= i < |s.keys| && i < |s.resolved| && s.keys[i] == k && s.resolved[i] == t {
      IndexOfUnique(s.keys, k, i);
    }
  }

  lemma ShapesDistinct(w: World, open: set<App>)
    requires Inv(w, open)
    ensures Distinct(w.shapes.arrays) && Distinct(w.shapes.cells) && Distinct(w.shapes.refs)
  {
  }

  /** The two ends meet in every legal world, in the middle of any nest of mints too: the denotation of a field is
      exactly the type that reads as the field. */
  lemma {:induction false} DenotesWhatReads(w: World, open: set<App>, t: Type, p: PolyType<Type>, args: seq<Type>,
        lens: seq<nat>)
    requires Inv(w, open)
    ensures Denote(w, p, args, lens) == Some(t) <==> ReadsAs(w, t, p, args, lens)
    decreases p, 1
  {
    ShapesDistinct(w, open);
    hide *;
    match p
    case Concrete(_) => LeafReads(w, t, p, args, lens);
    case Var(_) => LeafReads(w, t, p, args, lens);
    case PArray(_, _) => ArrayReads(w, open, t, p, args, lens);
    case PRef(_, _) => RefReads(w, open, t, p, args, lens);
    case PCell(_) => CellReads(w, open, t, p, args, lens);
    case PGeneric(_, _, _, _, _) => GenericReads(w, open, t, p, args, lens);
    case PApp(head, ps) => AppReads(w, open, t, head, ps, args, lens);
    case PQuot(_, _, _) => QuotReads(w, open, t, p, args, lens);
    case PQuotLit => LeafReads(w, t, p, args, lens);
    case PVariant(_, _, _, _, _) => LeafReads(w, t, p, args, lens);
  }

  lemma LeafReads(w: World, t: Type, p: PolyType<Type>, args: seq<Type>, lens: seq<nat>)
    requires p.Concrete? || p.Var? || p.PQuotLit? || p.PVariant?
    ensures Denote(w, p, args, lens) == Some(t) <==> ReadsAs(w, t, p, args, lens)
  {
  }

  lemma QuotReads(w: World, open: set<App>, t: Type, p: PolyType<Type>, args: seq<Type>, lens: seq<nat>)
    requires Inv(w, open) && p.PQuot?
    ensures Denote(w, p, args, lens) == Some(t) <==> ReadsAs(w, t, p, args, lens)
    decreases p, 0
  {
    hide Inv, ReadAsAll, DenoteAll;
    if t.Quot? {
      DenoteAllReads(w, open, t.ins, p.ins, args, lens);
      DenoteAllReads(w, open, t.outs, p.outs, args, lens);
    }
  }

  lemma GenericReads(w: World, open: set<App>, t: Type, p: PolyType<Type>, args: seq<Type>, lens: seq<nat>)
    requires Inv(w, open) && p.PGeneric?
    ensures Denote(w, p, args, lens) == Some(t) <==> ReadsAs(w, t, p, args, lens)
    decreases p, 0
  {
    hide Inv, ReadAsAll, DenoteAll, Lookup, LenValues, SpellsLens;
    MintedReads(w, open, t, p.isEnum, p.idx, p.modId, p.args, p.lens, args, lens);
  }

  lemma ArrayReads(w: World, open: set<App>, t: Type, p: PolyType<Type>, args: seq<Type>, lens: seq<nat>)
    requires Inv(w, open) && p.PArray? && Distinct(w.shapes.arrays)
    ensures Denote(w, p, args, lens) == Some(t) <==> ReadsAs(w, t, p, args, lens)
    decreases p, 0
  {
    hide Inv;
    if Denote(w, p, args, lens) == Some(t) {
      DenotesWhatReads(w, open, Denote(w, p.elem, args, lens).value, p.elem, args, lens);
      LenIsSpelled(LenValue(p.len, lens).value, p.len, lens);
    }
    if ReadsAs(w, t, p, args, lens) {
      var entry := w.shapes.arrays[t.id];
      DenotesWhatReads(w, open, entry.elem, p.elem, args, lens);
      LenIsSpelled(entry.count, p.len, lens);
      IndexOfUnique(w.shapes.arrays, entry, t.id);
    }
  }

  lemma RefReads(w: World, open: set<App>, t: Type, p: PolyType<Type>, args: seq<Type>, lens: seq<nat>)
    requires Inv(w, open) && p.PRef? && Distinct(w.shapes.refs)
    ensures Denote(w, p, args, lens) == Some(t) <==> ReadsAs(w, t, p, args, lens)
    decreases p, 0
  {
    hide Inv;
    if Denote(w, p, args, lens) == Some(t) {
      DenotesWhatReads(w, open, Denote(w, p.referent, args, lens).value, p.referent, args, lens);
    }
    if ReadsAs(w, t, p, args, lens) {
      var entry := w.shapes.refs[t.id];
      DenotesWhatReads(w, open, entry.target, p.referent, args, lens);
      IndexOfUnique(w.shapes.refs, entry, t.id);
    }
  }

  lemma CellReads(w: World, open: set<App>, t: Type, p: PolyType<Type>, args: seq<Type>, lens: seq<nat>)
    requires Inv(w, open) && p.PCell? && Distinct(w.shapes.cells)
    ensures Denote(w, p, args, lens) == Some(t) <==> ReadsAs(w, t, p, args, lens)
    decreases p, 0
  {
    hide Inv;
    if Denote(w, p, args, lens) == Some(t) {
      DenotesWhatReads(w, open, Denote(w, p.payload, args, lens).value, p.payload, args, lens);
    }
    if ReadsAs(w, t, p, args, lens) {
      DenotesWhatReads(w, open, w.shapes.cells[t.id], p.payload, args, lens);
      IndexOfUnique(w.shapes.cells, w.shapes.cells[t.id], t.id);
    }
  }

  /** The memo answers `t` for the spelled application exactly when `t` was minted for a key that reads so. */
  lemma {:induction false} MintedReads(w: World, open: set<App>, t: Type, e: bool, idx: nat, modId: nat,
        ps: seq<PolyType<Type>>, ls: seq<Len>, args: seq<Type>, lens: seq<nat>)
    requires Inv(w, open)
    ensures (DenoteAll(w, ps, args, lens).Some? && LenValues(ls, lens).Some? &&
               Lookup(w, App(e, Key(idx, modId, DenoteAll(w, ps, args, lens).value, LenValues(ls, lens).value))) ==
                 Some(t)) <==>
              (exists i: nat ::
                 MintedFor(w.Of(e), t, i, idx, modId) && SpellsLens(w.Of(e).keys[i].lens, ls, lens) &&
                 ReadAsAll(w, w.Of(e).keys[i].args, ps, args, lens))
    decreases ps, 2
  {
    var s, ds, ns := w.Of(e), DenoteAll(w, ps, args, lens), LenValues(ls, lens);
    hide Inv, Lookup, ReadAsAll, DenoteAll, SpellsLens, LenValues;
    if ds.Some? && ns.Some? && Lookup(w, App(e, Key(idx, modId, ds.value, ns.value))) == Some(t) {
      LookupFinds(w, open, e, Key(idx, modId, ds.value, ns.value), t);
      var i :| 0 <= i < |s.keys| && i < |s.resolved| && s.keys[i] == Key(idx, modId, ds.value, ns.value) &&
        s.resolved[i] == t;
      DenoteAllReads(w, open, ds.value, ps, args, lens);
      LensAreSpelled(ns.value, ls, lens);
      assert MintedFor(s, t, i, idx, modId);
    }
    if i: nat :|
      MintedFor(s, t, i, idx, modId) && SpellsLens(s.keys[i].lens, ls, lens) &&
      ReadAsAll(w, s.keys[i].args, ps, args, lens)
    {
      DenoteAllReads(w, open, s.keys[i].args, ps, args, lens);
      LensAreSpelled(s.keys[i].lens, ls, lens);
      LookupFinds(w, open, e, s.keys[i], t);
      assert s.keys[i] == Key(idx, modId, ds.value, ns.value);
    }
  }

  lemma {:induction false} AppReads(w: World, open: set<App>, t: Type, head: nat, ps: seq<PolyType<Type>>,
        args: seq<Type>, lens: seq<nat>)
    requires Inv(w, open)
    ensures Denote(w, PApp(head, ps), args, lens) == Some(t) <==> ReadsAs(w, t, PApp(head, ps), args, lens)
    decreases ps, 3
  {
    hide Inv, ReadAsAll, DenoteAll, Lookup;
    if head < |args| {
      if args[head].Ctor? {
        MintedReads(w, open, t, args[head].isEnum, args[head].idx, args[head].modId, ps, [], args, lens);
        NoLens(lens);
        hide SpellsLens;
      } else {
        var ds := DenoteAll(w, ps, args, lens);
        if ds.Some? { DenoteAllReads(w, open, ds.value, ps, args, lens); }
        if ts :| ReadAsAll(w, ts, ps, args, lens) { DenoteAllReads(w, open, ts, ps, args, lens); }
      }
    }
  }

  lemma NoLens(lens: seq<nat>)
    ensures LenValues([], lens) == Some([]) && forall ns :: SpellsLens(ns, [], lens) <==> ns == []
  {
  }

  lemma {:induction false} DenoteAllReads(w: World, open: set<App>, ts: seq<Type>, ps: seq<PolyType<Type>>,
        args: seq<Type>, lens: seq<nat>)
    requires Inv(w, open)
    ensures DenoteAll(w, ps, args, lens) == Some(ts) <==> ReadAsAll(w, ts, ps, args, lens)
    decreases ps, 1
  {
    hide Inv, Denote, ReadsAs;
    forall j | 0 <= j < |ps| && j < |ts|
      ensures Denote(w, ps[j], args, lens) == Some(ts[j]) <==> ReadsAs(w, ts[j], ps[j], args, lens)
    {
      DenotesWhatReads(w, open, ts[j], ps[j], args, lens);
    }
    if ReadAsAll(w, ts, ps, args, lens) { DenoteAllIs(w, ps, args, lens, ts); }
  }

  // ---------------------------------------------------------------- minted declarations

  /** Every field of every declaration that is due reads as the header spells it. */
  lemma FieldReads(w: World, e: bool, i: nat, v: nat, f: nat)
    requires Inv(w, {}) && i < |w.Of(e).keys| && w.Of(e).keys[i].idx !in w.Of(e).pending
    ensures var k := w.Of(e).keys[i];
            var d := DeclAt(w.Of(e), i, e).body;
            && k.idx < |w.Of(e).headers|
            && var body := w.Of(e).headers[k.idx].body;
               && |d| == |body|
               && (v < |body| ==> |d[v]| == |body[v]|)
               && (v < |body| && f < |body[v]| ==> ReadsAs(w, d[v][f], body[v][f], k.args, k.lens))
  {
    hide Lockstep, DeferredOk, HeadersOk, ShapesOk, ReadsAs, Denote;
    assert SideOk(w, e, {}) && KeySettled(w, e, i, {});
    var k := w.Of(e).keys[i];
    var body, d := w.Of(e).headers[k.idx].body, DeclAt(w.Of(e), i, e).body;
    if v < |body| && f < |body[v]| { DenotesWhatReads(w, {}, d[v][f], body[v][f], k.args, k.lens); }
  }

  /** Where a handle that reads as `p` carries the lengths `p` spells: a buffer in its count, an application in the
      places of its key. */
  lemma ReadsLengths(w: World, t: Type, p: PolyType<Type>, args: seq<Type>, lens: seq<nat>)
    requires ReadsAs(w, t, p, args, lens)
    ensures p.PArray? && p.len.LenVar? ==>
              && p.len.v < |lens| && t.Array? && t.id < |w.shapes.arrays|
              && w.shapes.arrays[t.id].count == lens[p.len.v]
    ensures p.PGeneric? ==>
              exists n :: 0 <= n < |w.Of(p.isEnum).keys| && n < |w.Of(p.isEnum).resolved| &&
                w.Of(p.isEnum).resolved[n] == t && |w.Of(p.isEnum).keys[n].lens| == |p.lens| &&
                forall j :: 0 <= j < |p.lens| && p.lens[j].LenVar? ==>
                  p.lens[j].v < |lens| && w.Of(p.isEnum).keys[n].lens[j] == lens[p.lens[j].v]
  {
    if p.PGeneric? {
      var n: nat :| MintedFor(w.Of(p.isEnum), t, n, p.idx, p.modId) &&
        SpellsLens(w.Of(p.isEnum).keys[n].lens, p.lens, lens);
      assert forall j :: 0 <= j < |p.lens| ==> SpellsLen(w.Of(p.isEnum).keys[n].lens[j], p.lens[j], lens);
    }
  }

  /** A declared buffer is as long as the argument in its variable's place. */
  lemma BufferIsAsLong(w: World, e: bool, i: nat, v: nat, f: nat)
    requires Inv(w, {}) && i < |w.Of(e).keys| && w.Of(e).keys[i].idx !in w.Of(e).pending
    requires w.Of(e).keys[i].idx < |w.Of(e).headers|
    requires var body := w.Of(e).headers[w.Of(e).keys[i].idx].body;
             v < |body| && f < |body[v]| && body[v][f].PArray? && body[v][f].len.LenVar?
    ensures var k := w.Of(e).keys[i];
            var x, d := w.Of(e).headers[k.idx].body[v][f].len.v, DeclAt(w.Of(e), i, e).body;
            && x < |k.lens| && v < |d| && f < |d[v]| && d[v][f].Array? && d[v][f].id < |w.shapes.arrays|
            && w.shapes.arrays[d[v][f].id].count == k.lens[x]
  {
    FieldReads(w, e, i, v, f);
    hide Inv, ReadsAs;
    var k := w.Of(e).keys[i];
    ReadsLengths(w, DeclAt(w.Of(e), i, e).body[v][f], w.Of(e).headers[k.idx].body[v][f], k.args, k.lens);
  }
}
