/** The store's where-input: an object whose keys are listing columns and whose values are
    conditions on that column, read as the conjunction of its entries; and the two store queries
    the controllers issue against it, `findMany` with `take` and `count`. The store is a sequence
    of listings in its own default order. */
module PropertyQuery {
  import opened Wrappers
  import opened Strings
  import opened Listings

  datatype Field = CityField | StateField | PincodeField | ForTypeField | PropertyTypeField
                 | BedroomsField | AreaUnitField | PriceField

  /** A condition on one column. A number operand is `None` when it came from a `NaN` parse. */
  datatype Condition =
    | ContainsInsensitive(text: string)
    | EqualsText(text: string)
    | EqualsNumber(number: Option<int>)
    | AtLeast(bound: Option<int>)
    | AtMost(bound: Option<int>)

  /** Why a store query fails: the store is unreachable, or it refuses the arguments (a negative
      `skip`, or in this model a negative `take`). The error's details are only logged, so none
      are kept. */
  datatype Failure = StoreUnavailable | RejectedArguments

  /** A where-input object; building it with spreads is a sequence of map updates, so a later
      spread of the same key replaces the earlier one. */
  type Where = map<Field, Condition>

  /** One `...(given && { key: condition })` of an object literal: it adds nothing when `given` is
      falsy, and otherwise puts `condition` under `key`. */
  datatype Spread = Skip | Put(key: Field, condition: Condition)

  /** Whether `s` puts a condition under `f`. */
  predicate PutsKey(s: Spread, f: Field)
  {
    s.Put? && s.key == f
  }

  /** An object literal of spreads evaluated left to right on top of `w`: each `Put` adds its key
      or replaces the value an earlier one put there. */
  function BuildWhere(w: Where, spreads: seq<Spread>): Where
    decreases |spreads|
  {
    if spreads == [] then w
    else
      var s := spreads[0];
      BuildWhere(if s.Put? then w[s.key := s.condition] else w, spreads[1..])
  }

  /** The last spread that puts key `f` decides its value. */
  lemma {:induction false} BuildWhereLast(w: Where, spreads: seq<Spread>, i: nat, f: Field)
    requires i < |spreads| && PutsKey(spreads[i], f)
    requires forall j :: i < j < |spreads| ==> !PutsKey(spreads[j], f)
    ensures f in BuildWhere(w, spreads) && BuildWhere(w, spreads)[f] == spreads[i].condition
    decreases |spreads|
  {
    var s := spreads[0];
    var w' := if s.Put? then w[s.key := s.condition] else w;
    if i == 0 {
      BuildWhereUntouched(w', spreads[1..], f);
    } else {
      BuildWhereLast(w', spreads[1..], i - 1, f);
    }
  }

  /** A key no spread puts keeps whatever `w` had under it. */
  lemma {:induction false} BuildWhereUntouched(w: Where, spreads: seq<Spread>, f: Field)
    requires forall j :: 0 <= j < |spreads| ==> !PutsKey(spreads[j], f)
    ensures f in BuildWhere(w, spreads) <==> f in w
    ensures f in w ==> BuildWhere(w, spreads)[f] == w[f]
    decreases |spreads|
  {
    if spreads != [] {
      var s := spreads[0];
      var w' := if s.Put? then w[s.key := s.condition] else w;
      assert !PutsKey(spreads[0], f);
      BuildWhereUntouched(w', spreads[1..], f);
    }
  }

  /** The text stored in a text column (`None` for a number column or a null). */
  function TextOf(l: Listing, f: Field): Option<string>
  {
    match f
    case CityField => Some(l.city)
    case StateField => Some(l.state)
    case PincodeField => Some(l.pincode)
    case ForTypeField => Some(l.forType)
    case PropertyTypeField => Some(TypeName(l.propertyType))
    case AreaUnitField => l.areaUnit
    case BedroomsField => None
    case PriceField => None
  }

  /** The number stored in a number column (`None` for a text column or a null). */
  function NumberOf(l: Listing, f: Field): Option<int>
  {
    match f
    case BedroomsField => l.bedrooms
    case PriceField => Some(l.price)
    case _ => None
  }

  /** Whether column `f` of `l` meets condition `c`. A null column or a `NaN` operand meets no
      condition. */
  predicate Holds(l: Listing, f: Field, c: Condition)
  {
    match c
    case ContainsInsensitive(t) => TextOf(l, f).Some? && Contains(Lower(TextOf(l, f).value), Lower(t))
    case EqualsText(t) => TextOf(l, f) == Some(t)
    case EqualsNumber(n) => n.Some? && NumberOf(l, f) == n
    case AtLeast(n) => n.Some? && NumberOf(l, f).Some? && NumberOf(l, f).value >= n.value
    case AtMost(n) => n.Some? && NumberOf(l, f).Some? && NumberOf(l, f).value <= n.value
  }

  /** A listing satisfies a where-input when it meets every condition in it. */
  predicate Satisfies(l: Listing, w: Where)
  {
    forall f :: f in w ==> Holds(l, f, w[f])
  }

  /** Every listing of the store that satisfies `w`, in store order. */
  function AllMatching(store: seq<Listing>, w: Where): (r: seq<Listing>)
    ensures |r| <= |store|
    ensures forall l :: l in r ==> l in store && Satisfies(l, w)
    ensures forall l :: l in store && Satisfies(l, w) ==> l in r
  {
    if store == [] then []
    else if Satisfies(store[0], w) then [store[0]] + AllMatching(store[1..], w)
    else AllMatching(store[1..], w)
  }

  /** `a` lists some of the elements of `b`, in the order they have in `b`. */
  predicate IsSubsequence<T(==)>(a: seq<T>, b: seq<T>)
    decreases |b|
  {
    if a == [] then true
    else if b == [] then false
    else if a[0] == b[0] then IsSubsequence(a[1..], b[1..])
    else IsSubsequence(a, b[1..])
  }

  lemma {:induction false} AllMatchingInOrder(store: seq<Listing>, w: Where)
    ensures IsSubsequence(AllMatching(store, w), store)
    decreases |store|
  {
    if store != [] {
      AllMatchingInOrder(store[1..], w);
      var rest := AllMatching(store[1..], w);
      if Satisfies(store[0], w) {
        assert ([store[0]] + rest)[1..] == rest;
      } else if rest != [] && rest[0] == store[0] {
        assert false;
      }
    }
  }

  /** The empty where-input selects the whole store. */
  lemma {:induction false} AllMatchingEmpty(store: seq<Listing>)
    ensures AllMatching(store, map[]) == store
    decreases |store|
  {
    if store != [] {
      AllMatchingEmpty(store[1..]);
      assert [store[0]] + store[1..] == store;
    }
  }

  /** `findMany({where: w, take})` in store order: the first `take` listings satisfying `w`,
      found by walking the store. */
  function FindMany(store: seq<Listing>, w: Where, take: nat): (r: seq<Listing>)
    decreases |store|
  {
    if store == [] || take == 0 then []
    else if Satisfies(store[0], w) then [store[0]] + FindMany(store[1..], w, take - 1)
    else FindMany(store[1..], w, take)
  }

  /** The walk returns exactly the first `take` of all the matches, so: at most `take` listings,
      each of them satisfying `w`, in store order, and fewer than `take` only when no further
      listing matches. */
  lemma {:induction false} FindManyIsPrefix(store: seq<Listing>, w: Where, take: nat)
    ensures FindMany(store, w, take) == AllMatching(store, w)[..Min(take, |AllMatching(store, w)|)]
    decreases |store|
  {
    if store != [] && take != 0 {
      FindManyIsPrefix(store[1..], w, take - 1);
      FindManyIsPrefix(store[1..], w, take);
    }
  }

  /** `count({where: w})`. */
  function Count(store: seq<Listing>, w: Where): nat
  {
    |AllMatching(store, w)|
  }
}
