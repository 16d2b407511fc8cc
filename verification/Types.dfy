/** Ground types, polymorphic types and the small sequence vocabulary every other module shares. */
module Types {

  datatype Option<+T> = None | Some(value: T)

  datatype Result<+T, +E> = Ok(value: T) | Err(error: E)

  /** The three spellings a ground quotation effect can have. */
  datatype Flavour = Plain | Inline | Owning

  /** A ground type: an opaque handle into a registry, a structural quotation effect, or the image of a
      generic header that has not been applied yet. `Nominal(false, i)` is `Type::Struct`,
      `Nominal(true, i)` is `Type::Enum`. */
  datatype Type =
    | Prim(tag: nat)
    | Nominal(isEnum: bool, id: nat)
    | Array(id: nat)
    | Cell(id: nat)
    | Ref(id: nat, mutable: bool)
    | Slice(id: nat, mutable: bool)
    | Quot(ins: seq<Type>, outs: seq<Type>, flavour: Flavour)
    | Ctor(isEnum: bool, idx: nat, modId: nat)

  datatype Len = Known(n: nat) | LenVar(v: nat)

  /** A type over a signature's variables. `C` is what a fully concrete leaf carries. */
  datatype PolyType<C> =
    | Concrete(ty: C)
    | Var(v: nat)
    | PArray(elem: PolyType<C>, len: Len)
    | PRef(referent: PolyType<C>, mutable: bool)
    | PCell(payload: PolyType<C>)
    | PGeneric(isEnum: bool, idx: nat, modId: nat, args: seq<PolyType<C>>, lens: seq<Len>)
    | PApp(head: nat, args: seq<PolyType<C>>)
    | PQuot(ins: seq<PolyType<C>>, outs: seq<PolyType<C>>, inline: bool)
    | PQuotLit
    | PVariant(idx: nat, modId: nat, vi: nat, args: seq<PolyType<C>>, lens: seq<Len>)

  /** What an array, a reference or a cell is of. */
  function Under<C>(p: PolyType<C>): PolyType<C>
    requires p.PArray? || p.PRef? || p.PCell?
  {
    match p
    case PArray(elem, _) => elem
    case PRef(referent, _) => referent
    case PCell(payload) => payload
  }

  predicate Distinct<T(==)>(s: seq<T>) {
    forall i, j :: 0 <= i < j < |s| ==> s[i] != s[j]
  }

  /** The first position of `x` in `s`, or `|s|` when there is none. */
  function IndexOf<T(==)>(s: seq<T>, x: T): (i: nat)
    ensures i <= |s|
    ensures i < |s| ==> s[i] == x
    ensures forall k :: 0 <= k < i ==> s[k] != x
    ensures i == |s| <==> x !in s
  {
    if s == [] || s[0] == x then 0 else 1 + IndexOf(s[1..], x)
  }

  /** `s` with `x` appended unless it is there already: the registry side of interning. */
  function Added<T(==)>(s: seq<T>, x: T): (r: seq<T>)
    ensures s <= r && x in r
    ensures Distinct(s) ==> Distinct(r)
  {
    if x in s then s else s + [x]
  }

  lemma IndexOfUnique<T>(s: seq<T>, x: T, i: nat)
    requires i < |s| && s[i] == x && Distinct(s)
    ensures IndexOf(s, x) == i
  {
  }

  lemma IndexOfGrows<T>(s: seq<T>, t: seq<T>, x: T)
    requires s <= t && x in s
    ensures IndexOf(t, x) == IndexOf(s, x)
  {
  }

  lemma IndexOfAdded<T>(s: seq<T>, x: T)
    ensures IndexOf(Added(s, x), x) == IndexOf(s, x)
  {
  }

  lemma SetShrinks<T>(u: set<T>, m: set<T>, m2: set<T>, x: T)
    requires m <= m2 && x in u && x !in m && x in m2
    ensures |u - m2| < |u - m|
  {
    SubsetSize(u - m2, u - m - {x});
  }

  lemma SubsetSize<T>(a: set<T>, b: set<T>)
    requires a <= b
    ensures |a| <= |b|
  {
    assert b == a + (b - a);
  }
}
