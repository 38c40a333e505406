/** The structural diff of the compare page (ui/src/pages/Compare.tsx:232-302), over JavaScript
    values. `k in obj` and `obj[k]` see inherited properties, so the names that plain objects
    inherit from Object.prototype are part of the model. */
module DiffTree {
  import opened Sorting

  // ---------- JavaScript values ----------

  /** Func stands for any inherited method; ObjectPrototype for Object.prototype itself, an object
      with no enumerable keys of its own. */
  datatype Js =
    | Undefined
    | Null
    | Bool(b: bool)
    | Num(n: real)
    | Str(s: string)
    | Arr(items: seq<Js>)
    | Obj(fields: map<string, Js>)
    | Func
    | ObjectPrototype

  const PROTO := "__proto__"

  predicate Inherited(k: string) {
    k in ["__proto__", "constructor", "toString", "toLocaleString", "valueOf", "hasOwnProperty",
          "isPrototypeOf", "propertyIsEnumerable", "__defineGetter__", "__defineSetter__",
          "__lookupGetter__", "__lookupSetter__"]
  }

  predicate IsObj(v: Js) {
    v.Obj? || v.ObjectPrototype?
  }

  function Keys(v: Js): set<string> {
    if v.Obj? then v.fields.Keys else {}
  }

  /** `k in v` */
  predicate In(v: Js, k: string) {
    k in Keys(v) || Inherited(k)
  }

  /** `v[k]` */
  function Lookup(v: Js, k: string): Js
    requires IsObj(v) && In(v, k)
  {
    if k in Keys(v) then v.fields[k]
    else if k != PROTO then Func
    else if v.Obj? then ObjectPrototype
    else Null
  }

  /** JSON.stringify returns undefined for these. */
  predicate Silent(v: Js) {
    v.Undefined? || v.Func?
  }

  /** JSON.stringify(a) === JSON.stringify(b), for values that are not both objects or both arrays. */
  predicate LeafSame(a: Js, b: Js) {
    (Silent(a) && Silent(b)) || (!Silent(a) && !Silent(b) && a == b)
  }

  /** What JSON.parse can produce. */
  predicate IsJson(v: Js) {
    match v
    case Undefined => false
    case Func => false
    case ObjectPrototype => false
    case Arr(items) => forall x | x in items :: IsJson(x)
    case Obj(fields) => forall k | k in fields :: IsJson(fields[k])
    case _ => true
  }

  // ---------- a measure for the recursion ----------

  ghost function Max(a: nat, b: nat): nat {
    if a > b then a else b
  }

  ghost function Height(v: Js): nat
    decreases v
  {
    match v
    case Undefined => 1
    case Arr(items) => 1 + SeqHeight(v, items)
    case Obj(fields) => 1 + MapHeight(v, fields)
    case _ => 0
  }

  ghost function SeqHeight(v: Js, items: seq<Js>): nat
    requires forall x | x in items :: x < v
    decreases v, |items|
  {
    if items == [] then 0
    else
      assert items[0] in items && forall x | x in items[1..] :: x in items;
      Max(Height(items[0]), SeqHeight(v, items[1..]))
  }

  ghost function MapHeight(v: Js, fields: map<string, Js>): nat
    requires forall k | k in fields :: fields[k] < v
    decreases v, |fields.Keys|
  {
    if fields == map[] then 0
    else
      assert fields.Keys != {};
      var k :| k in fields.Keys;
      assert (fields - {k}).Keys == fields.Keys - {k};
      Max(Height(fields[k]), MapHeight(v, fields - {k}))
  }

  lemma {:induction false} ItemHeight(v: Js, items: seq<Js>, i: nat)
    requires (forall x | x in items :: x < v) && i < |items|
    ensures Height(items[i]) <= SeqHeight(v, items)
    decreases |items|
  {
    assert items[0] in items && forall x | x in items[1..] :: x in items;
    if i > 0 {
      ItemHeight(v, items[1..], i - 1);
    }
  }

  lemma {:induction false} FieldHeight(v: Js, fields: map<string, Js>, k: string)
    requires (forall x | x in fields :: fields[x] < v) && k in fields
    ensures Height(fields[k]) <= MapHeight(v, fields)
    decreases |fields.Keys|
  {
    assert fields != map[] && fields.Keys != {};
    var c :| c in fields.Keys && MapHeight(v, fields) == Max(Height(fields[c]), MapHeight(v, fields - {c}));
    var rest := MapHeight(v, fields - {c});
    assert Max(Height(fields[c]), rest) >= Height(fields[c]) && Max(Height(fields[c]), rest) >= rest;
    if k != c {
      assert (fields - {c}).Keys == fields.Keys - {c};
      FieldHeight(v, fields - {c}, k);
      assert (fields - {c})[k] == fields[k];
    }
  }

  /** An own property is lower than its object; what is inherited has no height. */
  lemma OneLookupHeight(a: Js, k: string)
    requires IsObj(a) && In(a, k)
    ensures if k in Keys(a) then Height(Lookup(a, k)) < Height(a) else Height(Lookup(a, k)) == 0
  {
    if k in Keys(a) {
      FieldHeight(a, a.fields, k);
    }
  }

  lemma LookupHeight(a: Js, b: Js, k: string)
    requires IsObj(a) && IsObj(b) && In(a, k) && In(b, k) && k in Keys(a) + Keys(b)
    ensures Height(Lookup(a, k)) + Height(Lookup(b, k)) < Height(a) + Height(b)
  {
    OneLookupHeight(a, k);
    OneLookupHeight(b, k);
  }

  // ---------- the keys, sorted ----------

  lemma LeastExists(s: set<string>) returns (least: string)
    requires s != {}
    ensures least in s && forall x | x in s :: StringLe(least, x)
    decreases |s|
  {
    var y :| y in s;
    if s == {y} {
      least := y;
      StringLeTotal(y, y);
    } else {
      var rest := LeastExists(s - {y});
      StringLeTotal(rest, y);
      least := if StringLe(rest, y) then rest else y;
      StringLeTotal(y, y);
      forall x | x in s ensures StringLe(least, x) {
        if x != y {
          assert StringLe(rest, x);
          if least == y {
            StringLeTransitive(y, rest, x);
          }
        }
      }
    }
  }

  ghost predicate IsLeast(s: set<string>, k: string) {
    k in s && forall x | x in s :: StringLe(k, x)
  }

  ghost function Least(s: set<string>): string
    requires s != {}
  {
    assert exists k :: IsLeast(s, k) by {
      var k := LeastExists(s);
      assert IsLeast(s, k);
    }
    var k :| IsLeast(s, k);
    k
  }

  /** Array.from(set).sort() */
  ghost function SortedKeys(s: set<string>): seq<string>
    decreases |s|
  {
    if s == {} then [] else [Least(s)] + SortedKeys(s - {Least(s)})
  }

  lemma {:induction false} SortedKeysAre(s: set<string>)
    ensures forall k :: k in SortedKeys(s) <==> k in s
    ensures Unique(SortedKeys(s))
    decreases |s|
  {
    if s != {} {
      var k := Least(s);
      SortedKeysAre(s - {k});
      assert SortedKeys(s) == [k] + SortedKeys(s - {k});
      assert k !in SortedKeys(s - {k});
    }
  }

  lemma {:induction false} SortedKeysAreSorted(s: set<string>)
    ensures Sorted(SortedKeys(s), StringLe)
    decreases |s|
  {
    if s != {} {
      var k, rest := Least(s), SortedKeys(s - {Least(s)});
      SortedKeysAreSorted(s - {k});
      SortedKeysAre(s - {k});
      assert SortedKeys(s) == [k] + rest;
      forall x | x in rest ensures StringLe(k, x) {
        assert IsLeast(s, k) && x in s;
      }
    }
  }

  // ---------- the tree ----------

  datatype Kind = Same | Diff | OnlyA | OnlyB

  datatype DiffNode =
    | Leaf(kind: Kind, a: Js, b: Js, diffCount: nat)
    | Branch(kind: Kind, children: seq<Child>, diffCount: nat)

  datatype Child = Child(key: string, node: DiffNode)

  function Sum(children: seq<Child>): nat {
    if children == [] then 0 else Sum(children[..|children| - 1]) + children[|children| - 1].node.diffCount
  }

  function BranchOf(children: seq<Child>): DiffNode {
    Branch(if Sum(children) > 0 then Diff else Same, children, Sum(children))
  }

  function LeafOf(a: Js, b: Js): DiffNode {
    if LeafSame(a, b) then Leaf(Same, a, b, 0) else Leaf(Diff, a, b, 1)
  }

  /** An undefined side is walked as an empty container of the other side's kind. */
  function Fill(v: Js, other: Js): Js {
    if v.Undefined? && IsObj(other) then Obj(map[])
    else if v.Undefined? && other.Arr? then Arr([])
    else v
  }

  function Decimal(n: nat): string {
    if n < 10 then [('0' as int + n) as char] else Decimal(n / 10) + [('0' as int + n % 10) as char]
  }

  ghost function Build(a: Js, b: Js): DiffNode
    decreases Height(a) + Height(b), 2
  {
    var a', b' := Fill(a, b), Fill(b, a);
    if IsObj(a') && IsObj(b') then BranchOf(KeyChildren(a', b'))
    else if a'.Arr? && b'.Arr? then BranchOf(ItemChildren(a', b'))
    else LeafOf(a', b')
  }

  ghost function KeyChildren(a: Js, b: Js): seq<Child>
    requires IsObj(a) && IsObj(b)
    decreases Height(a) + Height(b), 1
  {
    var keys := SortedKeys(Keys(a) + Keys(b));
    SortedKeysAre(Keys(a) + Keys(b));
    seq(|keys|, i requires 0 <= i < |keys| =>
      assert keys[i] in keys;
      Child(keys[i], KeyNode(a, b, keys[i])))
  }

  function Longer(a: Js, b: Js): nat
    requires a.Arr? && b.Arr?
  {
    if |a.items| > |b.items| then |a.items| else |b.items|
  }

  ghost function ItemChildren(a: Js, b: Js): seq<Child>
    requires a.Arr? && b.Arr?
    decreases Height(a) + Height(b), 1
  {
    seq(Longer(a, b), i requires 0 <= i < Longer(a, b) => Child(Decimal(i), ItemNode(a, b, i)))
  }

  ghost function KeyNode(a: Js, b: Js, k: string): DiffNode
    requires IsObj(a) && IsObj(b) && k in Keys(a) + Keys(b)
    decreases Height(a) + Height(b), 0
  {
    if In(a, k) && In(b, k) then
      LookupHeight(a, b, k);
      Build(Lookup(a, k), Lookup(b, k))
    else if In(a, k) then Leaf(OnlyA, Lookup(a, k), Undefined, 1)
    else Leaf(OnlyB, Undefined, Lookup(b, k), 1)
  }

  ghost function ItemNode(a: Js, b: Js, i: nat): DiffNode
    requires a.Arr? && b.Arr? && (i < |a.items| || i < |b.items|)
    decreases Height(a) + Height(b), 0
  {
    if i < |a.items| && i < |b.items| then
      ItemHeight(a, a.items, i);
      ItemHeight(b, b.items, i);
      Build(a.items[i], b.items[i])
    else if i < |a.items| then Leaf(OnlyA, a.items[i], Undefined, 1)
    else Leaf(OnlyB, Undefined, b.items[i], 1)
  }

  lemma KeyChild(a: Js, b: Js, i: nat)
    requires IsObj(a) && IsObj(b) && i < |SortedKeys(Keys(a) + Keys(b))|
    ensures var k := SortedKeys(Keys(a) + Keys(b))[i];
            && |KeyChildren(a, b)| == |SortedKeys(Keys(a) + Keys(b))|
            && k in Keys(a) + Keys(b)
            && KeyChildren(a, b)[i] == Child(k, KeyNode(a, b, k))
            && (In(a, k) && In(b, k) ==>
                  && Height(Lookup(a, k)) + Height(Lookup(b, k)) < Height(a) + Height(b)
                  && KeyNode(a, b, k) == Build(Lookup(a, k), Lookup(b, k)))
  {
    var keys := SortedKeys(Keys(a) + Keys(b));
    SortedKeysAre(Keys(a) + Keys(b));
    assert keys[i] in keys;
    if In(a, keys[i]) && In(b, keys[i]) {
      LookupHeight(a, b, keys[i]);
    }
  }

  lemma ItemChild(a: Js, b: Js, i: nat)
    requires a.Arr? && b.Arr? && i < Longer(a, b)
    ensures |ItemChildren(a, b)| == Longer(a, b)
    ensures ItemChildren(a, b)[i] == Child(Decimal(i), ItemNode(a, b, i))
    ensures i < |a.items| && i < |b.items| ==>
              && Height(a.items[i]) + Height(b.items[i]) < Height(a) + Height(b)
              && ItemNode(a, b, i) == Build(a.items[i], b.items[i])
  {
    if i < |a.items| && i < |b.items| {
      ItemHeight(a, a.items, i);
      ItemHeight(b, b.items, i);
    }
  }

  // ---------- the code's loops ----------

  lemma LeastIsUnique(s: set<string>, k: string)
    requires IsLeast(s, k)
    ensures k == Least(s)
  {
    assert IsLeast(s, Least(s));
    StringLeTotal(k, Least(s));
  }

  /** Exactly the keys of the set, each once, in ascending order. */
  method SortKeys(s: set<string>) returns (keys: seq<string>)
    ensures keys == SortedKeys(s)
    ensures forall k :: k in keys <==> k in s
    ensures Unique(keys) && Sorted(keys, StringLe)
  {
    keys := [];
    var rest := s;
    while rest != {}
      invariant SortedKeys(s) == keys + SortedKeys(rest)
      decreases |rest|
    {
      ghost var least := LeastExists(rest);
      var k :| k in rest && forall x | x in rest :: StringLe(k, x);
      LeastIsUnique(rest, k);
      keys := keys + [k];
      rest := rest - {k};
    }
    assert keys == SortedKeys(s);
    SortedKeysAre(s);
    SortedKeysAreSorted(s);
  }

  /** One more child of `all`. */
  lemma NextChild(all: seq<Child>, i: nat, c: Child)
    requires i < |all| && all[i] == c
    ensures all[..i + 1] == all[..i] + [c] && Sum(all[..i + 1]) == Sum(all[..i]) + c.node.diffCount
  {
    assert all[..i + 1][..i] == all[..i];
  }

  /** buildDiffTree, with its loops over keys and positions. */
  method BuildDiffTree(a: Js, b: Js) returns (n: DiffNode)
    ensures n == Build(a, b)
    decreases Height(a) + Height(b), 3
  {
    var a', b' := Fill(a, b), Fill(b, a);
    if IsObj(a') && IsObj(b') {
      n := WalkKeys(a', b');
    } else if a'.Arr? && b'.Arr? {
      n := WalkItems(a', b');
    } else if LeafSame(a', b') {
      n := Leaf(Same, a', b', 0);
    } else {
      n := Leaf(Diff, a', b', 1);
    }
  }

  method WalkKey(a: Js, b: Js, k: string) returns (n: DiffNode)
    requires IsObj(a) && IsObj(b) && k in Keys(a) + Keys(b)
    ensures n == KeyNode(a, b, k)
    decreases Height(a) + Height(b), 0
  {
    if In(a, k) && In(b, k) {
      LookupHeight(a, b, k);
      n := BuildDiffTree(Lookup(a, k), Lookup(b, k));
    } else if In(a, k) {
      n := Leaf(OnlyA, Lookup(a, k), Undefined, 1);
    } else {
      n := Leaf(OnlyB, Undefined, Lookup(b, k), 1);
    }
  }

  method WalkKeys(a: Js, b: Js) returns (n: DiffNode)
    requires IsObj(a) && IsObj(b)
    ensures n == BranchOf(KeyChildren(a, b))
    decreases Height(a) + Height(b), 2
  {
    var keys := SortKeys(Keys(a) + Keys(b));
    forall i | 0 <= i < |keys|
      ensures keys[i] in Keys(a) + Keys(b) && KeyChildren(a, b)[i] == Child(keys[i], KeyNode(a, b, keys[i]))
    {
      KeyChild(a, b, i);
    }
    n := WalkEach(a, b, keys, KeyChildren(a, b));
  }

  method WalkEach(a: Js, b: Js, keys: seq<string>, ghost all: seq<Child>) returns (n: DiffNode)
    requires IsObj(a) && IsObj(b) && |keys| == |all|
    requires forall i | 0 <= i < |keys| ::
               keys[i] in Keys(a) + Keys(b) && all[i] == Child(keys[i], KeyNode(a, b, keys[i]))
    ensures n == BranchOf(all)
    decreases Height(a) + Height(b), 1
  {
    var children: seq<Child> := [];
    var diffCount := 0;
    for i := 0 to |keys|
      invariant children == all[..i] && diffCount == Sum(all[..i])
    {
      var node := WalkKey(a, b, keys[i]);
      NextChild(all, i, Child(keys[i], node));
      diffCount := diffCount + node.diffCount;
      children := children + [Child(keys[i], node)];
    }
    assert all[..|all|] == all;
    n := Branch(if diffCount > 0 then Diff else Same, children, diffCount);
  }

  method WalkItem(a: Js, b: Js, i: nat) returns (n: DiffNode)
    requires a.Arr? && b.Arr? && i < Longer(a, b)
    ensures n == ItemNode(a, b, i)
    decreases Height(a) + Height(b), 0
  {
    if i < |a.items| && i < |b.items| {
      ItemChild(a, b, i);
      n := BuildDiffTree(a.items[i], b.items[i]);
    } else if i < |a.items| {
      n := Leaf(OnlyA, a.items[i], Undefined, 1);
    } else {
      n := Leaf(OnlyB, Undefined, b.items[i], 1);
    }
  }

  method WalkItems(a: Js, b: Js) returns (n: DiffNode)
    requires a.Arr? && b.Arr?
    ensures n == BranchOf(ItemChildren(a, b))
    decreases Height(a) + Height(b), 2
  {
    n := WalkPositions(a, b, Longer(a, b), ItemChildren(a, b));
  }

  method WalkPositions(a: Js, b: Js, len: nat, ghost all: seq<Child>) returns (n: DiffNode)
    requires a.Arr? && b.Arr? && len == Longer(a, b) == |all|
    requires forall i | 0 <= i < len :: all[i] == Child(Decimal(i), ItemNode(a, b, i))
    ensures n == BranchOf(all)
    decreases Height(a) + Height(b), 1
  {
    var children: seq<Child> := [];
    var diffCount := 0;
    var i := 0;
    while i < len
      invariant 0 <= i <= len
      invariant children == all[..i] && diffCount == Sum(all[..i])
    {
      var node := WalkItem(a, b, i);
      NextChild(all, i, Child(Decimal(i), node));
      diffCount := diffCount + node.diffCount;
      children := children + [Child(Decimal(i), node)];
      i := i + 1;
    }
    assert all[..len] == all;
    n := Branch(if diffCount > 0 then Diff else Same, children, diffCount);
  }

  // ---------- what the children are called ----------

  /** The number a string of digits spells. */
  function Spelled(s: string): int {
    if s == "" then 0 else 10 * Spelled(s[..|s| - 1]) + (s[|s| - 1] as int - '0' as int)
  }

  lemma {:induction false} DecimalSpells(n: nat)
    ensures Spelled(Decimal(n)) == n && Decimal(n) != "" && (n > 0 ==> Decimal(n)[0] != '0')
    ensures forall c | c in Decimal(n) :: '0' <= c <= '9'
  {
    var d := Decimal(n);
    if n < 10 {
      assert d[..0] == "";
    } else {
      DecimalSpells(n / 10);
      assert d[..|d| - 1] == Decimal(n / 10);
      assert d[0] == Decimal(n / 10)[0];
    }
  }

  /** Two arrays have one child per position of the longer one, called by its number. */
  lemma ItemNames(a: Js, b: Js, i: nat)
    requires a.Arr? && b.Arr?
    ensures Build(a, b).Branch? && |Build(a, b).children| == Longer(a, b)
    ensures i < Longer(a, b) ==> Spelled(Build(a, b).children[i].key) == i
  {
    if i < Longer(a, b) {
      ItemChild(a, b, i);
      DecimalSpells(i);
    }
  }

  /** Two objects have one child per key of either, in ascending order. */
  lemma KeyNames(a: Js, b: Js, keys: seq<string>)
    requires a.Obj? && b.Obj?
    requires Unique(keys) && Sorted(keys, StringLe) && forall k :: k in keys <==> k in a.fields || k in b.fields
    ensures var n := Build(a, b);
            n.Branch? && |n.children| == |keys| && forall i | 0 <= i < |keys| :: n.children[i].key == keys[i]
  {
    SortedKeysAre(Keys(a) + Keys(b));
    SortedKeysAreSorted(Keys(a) + Keys(b));
    OnlySortedKeys(keys, SortedKeys(Keys(a) + Keys(b)));
  }

  lemma OnlySortedKeys(xs: seq<string>, ys: seq<string>)
    requires Unique(xs) && Unique(ys) && Sorted(xs, StringLe) && Sorted(ys, StringLe)
    requires forall k :: k in xs <==> k in ys
    ensures xs == ys
  {
    SameOnce(xs, ys);
    StringsSeparate(xs);
    SortedUnique(xs, ys, StringLe);
  }

  lemma SameOnce(xs: seq<string>, ys: seq<string>)
    requires Unique(xs) && Unique(ys) && forall k :: k in xs <==> k in ys
    ensures multiset(xs) == multiset(ys)
  {
    forall k ensures multiset(xs)[k] == multiset(ys)[k] {
      OnceEach(xs, k);
      OnceEach(ys, k);
    }
  }

  lemma StringsSeparate(xs: seq<string>)
    ensures Antisymmetric(xs, StringLe)
  {
    forall x, y | x in xs && y in xs && StringLe(x, y) && StringLe(y, x) ensures x == y {
      StringLeTotal(x, y);
    }
  }

  lemma {:induction false} OnceEach(xs: seq<string>, k: string)
    requires Unique(xs)
    ensures multiset(xs)[k] == if k in xs then 1 else 0
    decreases |xs|
  {
    if xs != [] {
      var front, last := xs[..|xs| - 1], xs[|xs| - 1];
      assert xs == front + [last];
      OnceEach(front, k);
    }
  }

  /** The names, besides "__proto__", that every object inherits. */
  lemma InheritedNames(k: string)
    requires k != "__proto__"
    ensures Inherited(k) <==>
            k in {"constructor", "toString", "toLocaleString", "valueOf", "hasOwnProperty", "isPrototypeOf",
                  "propertyIsEnumerable", "__defineGetter__", "__defineSetter__", "__lookupGetter__",
                  "__lookupSetter__"}
  {
  }

  /** A key that only A has is shown as such, unless every object inherits something of that name:
      then A's value is shown as different from what B inherits. */
  lemma OneSidedKey(a: Js, b: Js, k: string)
    requires a.Obj? && b.Obj? && k in a.fields && k !in b.fields && IsJson(a.fields[k]) && k != PROTO
    ensures KeyNode(a, b, k) ==
            if Inherited(k) then Leaf(Diff, a.fields[k], Func, 1) else Leaf(OnlyA, a.fields[k], Undefined, 1)
  {
    if Inherited(k) {
      assert Lookup(b, k) == Func;
      LeafAgainstMethod(a.fields[k]);
    }
  }

  lemma LeafAgainstMethod(v: Js)
    requires IsJson(v)
    ensures Build(v, Func) == Leaf(Diff, v, Func, 1)
  {
  }

  // ---------- counts ----------

  lemma {:induction false} SumZero(children: seq<Child>)
    ensures Sum(children) == 0 <==> forall i | 0 <= i < |children| :: children[i].node.diffCount == 0
  {
    if children != [] {
      SumZero(children[..|children| - 1]);
    }
  }

  lemma {:induction false} SameSum(xs: seq<Child>, ys: seq<Child>)
    requires |xs| == |ys| && forall i | 0 <= i < |xs| :: xs[i].node.diffCount == ys[i].node.diffCount
    ensures Sum(xs) == Sum(ys)
  {
    if xs != [] {
      SameSum(xs[..|xs| - 1], ys[..|ys| - 1]);
    }
  }

  /** Every inner node counts exactly its children's differences, and a node is marked "same"
      exactly when it counts none. */
  predicate WellCounted(n: DiffNode) {
    match n
    case Leaf(kind, _, _, c) => c == if kind == Same then 0 else 1
    case Branch(kind, children, c) =>
      && c == Sum(children) && kind == (if c > 0 then Diff else Same)
      && forall child | child in children :: WellCounted(child.node)
  }

  lemma KeyIsWellCounted(a: Js, b: Js, i: nat)
    requires IsObj(a) && IsObj(b) && i < |KeyChildren(a, b)|
    ensures WellCounted(KeyChildren(a, b)[i].node)
    decreases Height(a) + Height(b), 0
  {
    KeyChild(a, b, i);
    var k := KeyChildren(a, b)[i].key;
    if In(a, k) && In(b, k) {
      TreeIsWellCounted(Lookup(a, k), Lookup(b, k));
    }
  }

  lemma ItemIsWellCounted(a: Js, b: Js, i: nat)
    requires a.Arr? && b.Arr? && i < |ItemChildren(a, b)|
    ensures WellCounted(ItemChildren(a, b)[i].node)
    decreases Height(a) + Height(b), 0
  {
    ItemChild(a, b, i);
    if i < |a.items| && i < |b.items| {
      TreeIsWellCounted(a.items[i], b.items[i]);
    }
  }

  lemma {:induction false} TreeIsWellCounted(a: Js, b: Js)
    ensures WellCounted(Build(a, b))
    decreases Height(a) + Height(b), 1
  {
    var a', b' := Fill(a, b), Fill(b, a);
    if IsObj(a') && IsObj(b') {
      forall i | 0 <= i < |KeyChildren(a', b')| ensures WellCounted(KeyChildren(a', b')[i].node) {
        KeyIsWellCounted(a', b', i);
      }
    } else if a'.Arr? && b'.Arr? {
      forall i | 0 <= i < |ItemChildren(a', b')| ensures WellCounted(ItemChildren(a', b')[i].node) {
        ItemIsWellCounted(a', b', i);
      }
    }
  }

  // ---------- swapping the sides ----------

  function SwapKind(k: Kind): Kind {
    match k
    case OnlyA => OnlyB
    case OnlyB => OnlyA
    case _ => k
  }

  function Swap(n: DiffNode): DiffNode {
    match n
    case Leaf(kind, a, b, c) => Leaf(SwapKind(kind), b, a, c)
    case Branch(kind, children, c) =>
      Branch(kind, seq(|children|, i requires 0 <= i < |children| => Child(children[i].key, Swap(children[i].node))), c)
  }

  lemma SwapCount(n: DiffNode)
    ensures Swap(n).diffCount == n.diffCount
  {
  }

  lemma SwapBranch(xs: seq<Child>, ys: seq<Child>)
    requires |xs| == |ys|
    requires forall i | 0 <= i < |xs| :: ys[i] == Child(xs[i].key, Swap(xs[i].node))
    ensures BranchOf(ys) == Swap(BranchOf(xs))
  {
    forall i | 0 <= i < |xs| ensures xs[i].node.diffCount == ys[i].node.diffCount {
      SwapCount(xs[i].node);
    }
    SameSum(xs, ys);
  }

  lemma SwapKeyChild(a: Js, b: Js, i: nat)
    requires IsObj(a) && IsObj(b) && i < |SortedKeys(Keys(a) + Keys(b))| && Keys(a) + Keys(b) == Keys(b) + Keys(a)
    ensures var xs, ys := KeyChildren(a, b), KeyChildren(b, a);
            |xs| == |ys| == |SortedKeys(Keys(a) + Keys(b))| && ys[i] == Child(xs[i].key, Swap(xs[i].node))
    decreases Height(a) + Height(b), 0
  {
    var k := SortedKeys(Keys(a) + Keys(b))[i];
    KeyChild(a, b, i);
    KeyChild(b, a, i);
    if In(a, k) && In(b, k) {
      SwapSides(Lookup(a, k), Lookup(b, k));
    }
  }

  lemma SwapItemChild(a: Js, b: Js, i: nat)
    requires a.Arr? && b.Arr? && i < Longer(a, b)
    ensures var xs, ys := ItemChildren(a, b), ItemChildren(b, a);
            |xs| == |ys| == Longer(a, b) && ys[i] == Child(xs[i].key, Swap(xs[i].node))
    decreases Height(a) + Height(b), 0
  {
    ItemChild(a, b, i);
    ItemChild(b, a, i);
    if i < |a.items| && i < |b.items| {
      SwapSides(a.items[i], b.items[i]);
    }
  }

  /** Swapping the sides swaps only-a with only-b and the two values, and keeps every count. */
  lemma {:induction false} SwapSides(a: Js, b: Js)
    ensures Build(b, a) == Swap(Build(a, b))
    decreases Height(a) + Height(b), 1
  {
    var a', b' := Fill(a, b), Fill(b, a);
    if IsObj(a') && IsObj(b') {
      var xs, ys := KeyChildren(a', b'), KeyChildren(b', a');
      assert Keys(a') + Keys(b') == Keys(b') + Keys(a');
      forall i | 0 <= i < |xs| ensures ys[i] == Child(xs[i].key, Swap(xs[i].node)) {
        SwapKeyChild(a', b', i);
      }
      SwapBranch(xs, ys);
    } else if a'.Arr? && b'.Arr? {
      var xs, ys := ItemChildren(a', b'), ItemChildren(b', a');
      forall i | 0 <= i < |xs| ensures ys[i] == Child(xs[i].key, Swap(xs[i].node)) {
        SwapItemChild(a', b', i);
      }
      SwapBranch(xs, ys);
    }
  }

  // ---------- when nothing differs ----------

  /** The values an own "__proto__" property can have that a plain object's inherited one hides. */
  predicate Hidden(v: Js) {
    v == Obj(map[]) || v == Obj(map[PROTO := Null])
  }

  /** Equality of JSON values, except that an own "__proto__" with a hidden value may be missing on
      one side. */
  predicate Alike(a: Js, b: Js)
    decreases a
  {
    if a.Obj? && b.Obj? then
      && (forall k | k in a.fields && k in b.fields :: Alike(a.fields[k], b.fields[k]))
      && (forall k | k in a.fields && k !in b.fields :: k == PROTO && Hidden(a.fields[k]))
      && (forall k | k in b.fields && k !in a.fields :: k == PROTO && Hidden(b.fields[k]))
    else if a.Arr? && b.Arr? then
      |a.items| == |b.items| && forall i | 0 <= i < |a.items| :: Alike(a.items[i], b.items[i])
    else a == b
  }

  lemma KeyChildrenZero(a: Js, b: Js)
    requires IsObj(a) && IsObj(b)
    ensures Sum(KeyChildren(a, b)) == 0 <==> forall k | k in Keys(a) + Keys(b) :: KeyNode(a, b, k).diffCount == 0
  {
    var keys, children := SortedKeys(Keys(a) + Keys(b)), KeyChildren(a, b);
    SortedKeysAre(Keys(a) + Keys(b));
    SumZero(children);
    if Sum(children) == 0 {
      forall k | k in Keys(a) + Keys(b) ensures KeyNode(a, b, k).diffCount == 0 {
        assert k in keys;
        var i :| 0 <= i < |keys| && keys[i] == k;
        assert children[i].node == KeyNode(a, b, k);
      }
    } else {
      var i :| 0 <= i < |children| && children[i].node.diffCount != 0;
      assert keys[i] in keys && children[i].node == KeyNode(a, b, keys[i]);
    }
  }

  lemma KeyAgainstPrototype(x: Js, k: string)
    requires x.Obj? && k in x.fields && IsJson(x.fields[k])
    ensures KeyNode(x, ObjectPrototype, k).diffCount == 0 <==> k == PROTO && x.fields[k] == Null
  {
    if In(ObjectPrototype, k) {
      var y := Lookup(ObjectPrototype, k);
      assert y == if k == PROTO then Null else Func;
      assert Build(x.fields[k], y) == LeafOf(x.fields[k], y);
    }
  }

  lemma AgainstPrototype(x: Js)
    requires IsJson(x)
    ensures Build(x, ObjectPrototype).diffCount == 0 <==> Hidden(x)
  {
    if x.Obj? {
      KeyChildrenZero(x, ObjectPrototype);
      forall k | k in x.fields
        ensures KeyNode(x, ObjectPrototype, k).diffCount == 0 <==> k == PROTO && x.fields[k] == Null
      {
        KeyAgainstPrototype(x, k);
      }
      HiddenKeys(x);
    }
  }

  lemma HiddenKeys(x: Js)
    requires x.Obj?
    ensures Hidden(x) <==> forall k | k in x.fields :: k == PROTO && x.fields[k] == Null
  {
    if forall k | k in x.fields :: k == PROTO && x.fields[k] == Null {
      if PROTO in x.fields {
        assert x.fields == map[PROTO := Null];
      } else {
        assert x.fields == map[];
      }
    }
  }

  lemma AgainstMethod(x: Js)
    requires IsJson(x)
    ensures Build(x, Func).diffCount == 1
  {
  }

  lemma MissingOnRight(a: Js, b: Js, k: string)
    requires a.Obj? && b.Obj? && IsJson(a) && k in a.fields && k !in b.fields
    ensures KeyNode(a, b, k).diffCount == 0 <==> k == PROTO && Hidden(a.fields[k])
  {
    assert IsJson(a.fields[k]);
    AgainstPrototype(a.fields[k]);
    AgainstMethod(a.fields[k]);
  }

  lemma SwapKeyNode(a: Js, b: Js, k: string)
    requires IsObj(a) && IsObj(b) && k in Keys(a) + Keys(b)
    ensures KeyNode(a, b, k).diffCount == KeyNode(b, a, k).diffCount
  {
    if In(a, k) && In(b, k) {
      SwapSides(Lookup(a, k), Lookup(b, k));
      SwapCount(Build(Lookup(a, k), Lookup(b, k)));
    }
  }

  /** The count is 0 exactly when the two documents are alike. */
  lemma {:induction false} NoDifferenceIffAlike(a: Js, b: Js)
    requires IsJson(a) && IsJson(b)
    ensures Build(a, b).diffCount == 0 <==> Alike(a, b)
    decreases Height(a) + Height(b)
  {
    if a.Obj? && b.Obj? {
      KeyChildrenZero(a, b);
      forall k | k in Keys(a) + Keys(b)
        ensures KeyNode(a, b, k).diffCount == 0 <==>
                if k !in b.fields then k == PROTO && Hidden(a.fields[k])
                else if k !in a.fields then k == PROTO && Hidden(b.fields[k])
                else Alike(a.fields[k], b.fields[k])
      {
        if k !in b.fields {
          MissingOnRight(a, b, k);
        } else if k !in a.fields {
          MissingOnRight(b, a, k);
          SwapKeyNode(a, b, k);
        } else {
          LookupHeight(a, b, k);
          NoDifferenceIffAlike(a.fields[k], b.fields[k]);
        }
      }
    } else if a.Arr? && b.Arr? {
      var children := ItemChildren(a, b);
      SumZero(children);
      forall i | 0 <= i < |children|
        ensures children[i].node.diffCount == 0 <==>
                i < |a.items| && i < |b.items| && Alike(a.items[i], b.items[i])
      {
        ItemChild(a, b, i);
        if i < |a.items| && i < |b.items| {
          NoDifferenceIffAlike(a.items[i], b.items[i]);
        }
      }
    }
  }

  /** An own property named "__proto__" somewhere in v. */
  predicate HasProto(v: Js) {
    match v
    case Obj(fields) => PROTO in fields || exists k | k in fields :: HasProto(fields[k])
    case Arr(items) => exists x | x in items :: HasProto(x)
    case _ => false
  }

  lemma {:induction false} AlikeIsEqual(a: Js, b: Js)
    ensures a == b ==> Alike(a, b)
    ensures Alike(a, b) && !HasProto(a) && !HasProto(b) ==> a == b
    decreases a
  {
    if a.Obj? && b.Obj? {
      forall k | k in a.fields && k in b.fields
        ensures a.fields[k] == b.fields[k] ==> Alike(a.fields[k], b.fields[k])
        ensures Alike(a.fields[k], b.fields[k]) && !HasProto(a) && !HasProto(b) ==> a.fields[k] == b.fields[k]
      {
        AlikeIsEqual(a.fields[k], b.fields[k]);
      }
      if Alike(a, b) && !HasProto(a) && !HasProto(b) {
        assert a.fields.Keys == b.fields.Keys;
        assert a.fields == b.fields;
      }
    } else if a.Arr? && b.Arr? {
      forall i | 0 <= i < |a.items| && i < |b.items|
        ensures a.items[i] == b.items[i] ==> Alike(a.items[i], b.items[i])
        ensures Alike(a.items[i], b.items[i]) && !HasProto(a) && !HasProto(b) ==> a.items[i] == b.items[i]
      {
        AlikeIsEqual(a.items[i], b.items[i]);
      }
    }
  }

  /** Without "__proto__" keys the diff is exact: no differences exactly for equal documents. */
  lemma DiffIsExact(a: Js, b: Js)
    requires IsJson(a) && IsJson(b) && !HasProto(a) && !HasProto(b)
    ensures Build(a, b).diffCount == 0 <==> a == b
  {
    NoDifferenceIffAlike(a, b);
    AlikeIsEqual(a, b);
  }

  /** With them it is not: the page shows no difference between {} and {"__proto__": {}}. */
  lemma ProtoKeyIsInvisible()
    ensures Build(Obj(map[]), Obj(map[PROTO := Obj(map[])])).diffCount == 0
  {
    var a, b := Obj(map[]), Obj(map[PROTO := Obj(map[])]);
    NoDifferenceIffAlike(a, b);
    assert forall k | k in b.fields :: k == PROTO && b.fields[k] == Obj(map[]);
  }

  // ---------- which documents the count tells apart from all others ----------

  /** Some object in v, at any depth, can gain or lose a hidden "__proto__" unseen: it has none, or
      a hidden one. */
  predicate Loose(v: Js) {
    match v
    case Obj(fields) => PROTO !in fields || Hidden(fields[PROTO]) || exists k | k in fields :: Loose(fields[k])
    case Arr(items) => exists x | x in items :: Loose(x)
    case _ => false
  }

  lemma {:induction false} NotLooseIsEqual(a: Js, b: Js)
    requires Alike(a, b) && !Loose(a)
    ensures a == b
    decreases a
  {
    if a.Obj? && b.Obj? {
      forall k | k in a.fields && k in b.fields ensures a.fields[k] == b.fields[k] {
        NotLooseIsEqual(a.fields[k], b.fields[k]);
      }
      assert a.fields.Keys == b.fields.Keys;
      assert a.fields == b.fields;
    } else if a.Arr? && b.Arr? {
      forall i | 0 <= i < |a.items| ensures a.items[i] == b.items[i] {
        NotLooseIsEqual(a.items[i], b.items[i]);
      }
    }
  }

  lemma AlikeFields(a: Js, b: Js, k: string)
    requires a.Obj? && b.Obj? && (k in a.fields || k in b.fields)
    requires forall x | x != k :: x in a.fields <==> x in b.fields
    requires forall x | x != k && x in a.fields && x in b.fields :: a.fields[x] == b.fields[x]
    requires if k !in a.fields then k == PROTO && Hidden(b.fields[k])
             else if k !in b.fields then k == PROTO && Hidden(a.fields[k])
             else Alike(a.fields[k], b.fields[k])
    ensures Alike(a, b)
  {
    forall x | x in a.fields && x in b.fields ensures Alike(a.fields[x], b.fields[x]) {
      if x != k {
        AlikeIsEqual(a.fields[x], b.fields[x]);
      }
    }
  }

  lemma AlikeItems(a: Js, b: Js, i: nat)
    requires a.Arr? && i < |a.items| && b.Arr? && |b.items| == |a.items| && Alike(a.items[i], b.items[i])
    requires forall j | 0 <= j < |a.items| && j != i :: a.items[j] == b.items[j]
    ensures Alike(a, b)
  {
    forall j | 0 <= j < |a.items| ensures Alike(a.items[j], b.items[j]) {
      if j != i {
        AlikeIsEqual(a.items[j], b.items[j]);
      }
    }
  }

  lemma {:induction false} LooseTwin(a: Js) returns (b: Js)
    requires IsJson(a) && Loose(a)
    ensures IsJson(b) && b != a && Alike(a, b)
    decreases a
  {
    if a.Arr? {
      var i :| 0 <= i < |a.items| && Loose(a.items[i]);
      var x := LooseTwin(a.items[i]);
      b := Arr(a.items[i := x]);
      assert b.items[i] != a.items[i];
      AlikeItems(a, b, i);
    } else if PROTO !in a.fields {
      b := Obj(a.fields[PROTO := Obj(map[])]);
      assert PROTO in b.fields;
      AlikeFields(a, b, PROTO);
    } else if Hidden(a.fields[PROTO]) {
      b := Obj(a.fields - {PROTO});
      assert PROTO !in b.fields;
      AlikeFields(a, b, PROTO);
    } else {
      var k :| k in a.fields && Loose(a.fields[k]);
      var x := LooseTwin(a.fields[k]);
      b := Obj(a.fields[k := x]);
      assert b.fields[k] != a.fields[k];
      AlikeFields(a, b, k);
    }
  }

  ghost predicate CountsExactly(a: Js) {
    forall b | IsJson(b) :: Build(a, b).diffCount == 0 <==> a == b
  }

  /** The count tells A apart from every other document exactly when A is not loose. */
  lemma CountIsExactIff(a: Js)
    requires IsJson(a)
    ensures CountsExactly(a) <==> !Loose(a)
  {
    if Loose(a) {
      var b := LooseTwin(a);
      NoDifferenceIffAlike(a, b);
    } else {
      forall b | IsJson(b) ensures Build(a, b).diffCount == 0 <==> a == b {
        NoDifferenceIffAlike(a, b);
        AlikeIsEqual(a, b);
        if Alike(a, b) {
          NotLooseIsEqual(a, b);
        }
      }
    }
  }

  // ---------- rebuilding the right side ----------

  /** An own property named "__proto__" somewhere in v holds an object. */
  predicate ProtoObject(v: Js) {
    match v
    case Obj(fields) =>
      || (PROTO in fields && fields[PROTO].Obj?)
      || exists k | k in fields :: ProtoObject(fields[k])
    case Arr(items) => exists x | x in items :: ProtoObject(x)
    case _ => false
  }

  /** The child says that B has no such key: it is on the left only, or what B shows is inherited. */
  predicate Absent(n: DiffNode) {
    n.Leaf? && (n.kind == OnlyA || n.b == Func || n.b == ObjectPrototype)
  }

  function LeftField(a: Js, k: string): Js {
    if IsObj(a) && In(a, k) then Lookup(a, k) else Undefined
  }

  function LeftItem(a: Js, i: nat): Js {
    if a.Arr? && i < |a.items| then a.items[i] else Undefined
  }

  /** B, from A and the tree. */
  function Patch(a: Js, n: DiffNode): Js
    decreases n
  {
    if n.Leaf? then n.b
    else if a.Arr? then Arr(PatchItems(a, n, |n.children|))
    else Obj(PatchFields(a, n, |n.children|))
  }

  function PatchFields(a: Js, n: DiffNode, count: nat): map<string, Js>
    requires n.Branch? && count <= |n.children|
    decreases n, count
  {
    if count == 0 then map[]
    else
      var m, c := PatchFields(a, n, count - 1), n.children[count - 1];
      if Absent(c.node) then m
      else m[c.key := Patch(LeftField(a, c.key), c.node)]
  }

  function PatchItems(a: Js, n: DiffNode, count: nat): seq<Js>
    requires n.Branch? && count <= |n.children|
    decreases n, count
  {
    if count == 0 then []
    else
      var m, c := PatchItems(a, n, count - 1), n.children[count - 1];
      if Absent(c.node) then m
      else m + [Patch(LeftItem(a, count - 1), c.node)]
  }

  /** What can stand on the left during the walk. */
  predicate LeftSide(a: Js) {
    a.Func? || a.ObjectPrototype? || (IsJson(a) && !ProtoObject(a))
  }

  lemma JsonIsPresent(a: Js, b: Js)
    requires IsJson(b)
    ensures !Absent(Build(a, b))
  {
  }

  /** A child tells whether B has its key, and with A's value gives B's. */
  ghost predicate FieldTells(a: Js, b: Js, c: Child)
    requires b.Obj?
  {
    if c.key in b.fields then !Absent(c.node) && Patch(LeftField(a, c.key), c.node) == b.fields[c.key]
    else Absent(c.node)
  }

  ghost predicate ItemTells(a: Js, b: Js, i: nat, n: DiffNode)
    requires b.Arr?
  {
    if i < |b.items| then !Absent(n) && Patch(LeftItem(a, i), n) == b.items[i] else Absent(n)
  }

  /** m is b's fields, restricted to the given keys. */
  ghost predicate Restores(m: map<string, Js>, b: Js, keys: seq<string>)
    requires b.Obj?
  {
    && (forall k :: k in m <==> k in keys && k in b.fields)
    && (forall k | k in m && k in b.fields :: m[k] == b.fields[k])
  }

  lemma RestoresMore(m: map<string, Js>, b: Js, keys: seq<string>, k: string, m': map<string, Js>)
    requires b.Obj? && Restores(m, b, keys)
    requires if k in b.fields then m' == m[k := b.fields[k]] else m' == m
    ensures Restores(m', b, keys + [k])
  {
  }

  /** Children that tell, one for each of the keys, give back B's fields. */
  lemma {:induction false} FieldsRestore(a: Js, b: Js, n: DiffNode, keys: seq<string>, count: nat)
    requires b.Obj? && n.Branch? && |keys| == |n.children| && count <= |keys|
    requires forall i | 0 <= i < |keys| :: n.children[i].key == keys[i] && FieldTells(a, b, n.children[i])
    ensures Restores(PatchFields(a, n, count), b, keys[..count])
    decreases count
  {
    if count > 0 {
      FieldsRestore(a, b, n, keys, count - 1);
      var c := n.children[count - 1];
      assert FieldTells(a, b, c);
      assert keys[..count] == keys[..count - 1] + [c.key];
      RestoresMore(PatchFields(a, n, count - 1), b, keys[..count - 1], c.key, PatchFields(a, n, count));
    }
  }

  lemma {:induction false} ItemsRestore(a: Js, b: Js, n: DiffNode, count: nat)
    requires b.Arr? && n.Branch? && |b.items| <= |n.children| && count <= |n.children|
    requires forall i | 0 <= i < |n.children| :: ItemTells(a, b, i, n.children[i].node)
    ensures PatchItems(a, n, count) == b.items[..if count <= |b.items| then count else |b.items|]
    decreases count
  {
    if count > 0 {
      ItemsRestore(a, b, n, count - 1);
      assert ItemTells(a, b, count - 1, n.children[count - 1].node);
      if count <= |b.items| {
        assert b.items[..count] == b.items[..count - 1] + [b.items[count - 1]];
      }
    }
  }

  lemma RestoresAll(m: map<string, Js>, b: Js, keys: seq<string>)
    requires b.Obj? && Restores(m, b, keys) && forall k | k in b.fields :: k in keys
    ensures m == b.fields
  {
  }

  lemma MissingKeyTells(a: Js, b: Js, k: string)
    requires LeftSide(a) && IsObj(a) && b.Obj? && k in Keys(a) && k !in b.fields
    ensures Absent(KeyNode(a, b, k))
  {
    assert IsJson(a.fields[k]) && (k == PROTO ==> !a.fields[k].Obj?);
  }

  lemma KeyTells(a: Js, b: Js, k: string)
    requires LeftSide(a) && IsObj(a) && b.Obj? && IsJson(b) && k in Keys(a) + Keys(b)
    ensures FieldTells(a, b, Child(k, KeyNode(a, b, k)))
    decreases Height(a) + Height(b), 0
  {
    if k !in b.fields {
      MissingKeyTells(a, b, k);
    } else if In(a, k) {
      LookupHeight(a, b, k);
      JsonIsPresent(Lookup(a, k), b.fields[k]);
      PatchRestores(Lookup(a, k), b.fields[k]);
    }
  }

  lemma PositionTells(a: Js, b: Js, i: nat)
    requires LeftSide(a) && a.Arr? && b.Arr? && IsJson(b) && i < Longer(a, b)
    ensures ItemTells(a, b, i, ItemNode(a, b, i))
    decreases Height(a) + Height(b), 0
  {
    if i < |b.items| {
      assert b.items[i] in b.items;
    }
    if i < |a.items| && i < |b.items| {
      assert a.items[i] in a.items;
      ItemChild(a, b, i);
      JsonIsPresent(a.items[i], b.items[i]);
      PatchRestores(a.items[i], b.items[i]);
    }
  }

  lemma ChildTells(a: Js, b: Js, children: seq<Child>, keys: seq<string>, i: nat)
    requires LeftSide(a) && IsObj(a) && b.Obj? && IsJson(b)
    requires children == KeyChildren(a, b) && keys == SortedKeys(Keys(a) + Keys(b)) && i < |keys|
    ensures |children| == |keys| && children[i].key == keys[i] && FieldTells(a, b, children[i])
    decreases Height(a) + Height(b), 1
  {
    KeyChild(a, b, i);
    KeyTells(a, b, keys[i]);
  }

  lemma KeysCover(a: Js, b: Js, keys: seq<string>)
    requires IsObj(a) && b.Obj? && keys == SortedKeys(Keys(a) + Keys(b))
    ensures |KeyChildren(a, b)| == |keys| && keys[..|keys|] == keys && forall k | k in b.fields :: k in keys
  {
    SortedKeysAre(Keys(a) + Keys(b));
  }

  lemma ObjectRestores(a: Js, b: Js, n: DiffNode)
    requires LeftSide(a) && IsObj(a) && b.Obj? && IsJson(b)
    requires n.Branch? && n.children == KeyChildren(a, b)
    ensures PatchFields(a, n, |n.children|) == b.fields
    decreases Height(a) + Height(b), 2
  {
    var keys := SortedKeys(Keys(a) + Keys(b));
    KeysCover(a, b, keys);
    forall i | 0 <= i < |keys| ensures n.children[i].key == keys[i] && FieldTells(a, b, n.children[i]) {
      ChildTells(a, b, n.children, keys, i);
    }
    FieldsRestore(a, b, n, keys, |keys|);
    RestoresAll(PatchFields(a, n, |keys|), b, keys);
  }

  lemma ArrayRestores(a: Js, b: Js, n: DiffNode)
    requires LeftSide(a) && a.Arr? && b.Arr? && IsJson(b) && n == BranchOf(ItemChildren(a, b))
    ensures PatchItems(a, n, |n.children|) == b.items
    decreases Height(a) + Height(b), 1
  {
    forall i | 0 <= i < |n.children| ensures ItemTells(a, b, i, n.children[i].node) {
      ItemChild(a, b, i);
      PositionTells(a, b, i);
    }
    ItemsRestore(a, b, n, |n.children|);
    assert b.items[..|b.items|] == b.items;
  }

  /** A and the tree give back B, when no "__proto__" of A holds an object. */
  lemma {:induction false} PatchRestores(a: Js, b: Js)
    requires LeftSide(a) && IsJson(b)
    ensures Patch(a, Build(a, b)) == b
    decreases Height(a) + Height(b), 3
  {
    if IsObj(a) && b.Obj? {
      ObjectRestores(a, b, BranchOf(KeyChildren(a, b)));
    } else if a.Arr? && b.Arr? {
      ArrayRestores(a, b, BranchOf(ItemChildren(a, b)));
    }
  }

  // ---------- otherwise B is not determined ----------

  /** A JSON object that, next to v, looks like Object.prototype. */
  function Double(v: Js): Js
    requires v.Obj?
  {
    if PROTO in v.fields then Obj(map[PROTO := Null]) else Obj(map[])
  }

  lemma SameKeyChild(a: Js, b: Js, c: Js, keys: seq<string>, i: nat)
    requires IsObj(a) && IsObj(b) && IsObj(c) && i < |keys|
    requires keys == SortedKeys(Keys(a) + Keys(b)) == SortedKeys(Keys(a) + Keys(c))
    requires forall k | k in Keys(a) + Keys(b) && k in Keys(a) + Keys(c) :: KeyNode(a, b, k) == KeyNode(a, c, k)
    ensures |KeyChildren(a, b)| == |KeyChildren(a, c)| == |keys| && KeyChildren(a, b)[i] == KeyChildren(a, c)[i]
  {
    KeyChild(a, b, i);
    KeyChild(a, c, i);
  }

  lemma SameKeyTrees(a: Js, b: Js, c: Js)
    requires a.Obj? && IsObj(b) && IsObj(c) && Keys(b) <= Keys(a) && Keys(c) <= Keys(a)
    requires forall k | k in a.fields :: KeyNode(a, b, k) == KeyNode(a, c, k)
    ensures Build(a, b) == Build(a, c)
  {
    var keys, xs, ys := SortedKeys(Keys(a)), KeyChildren(a, b), KeyChildren(a, c);
    assert Keys(a) + Keys(b) == Keys(a) && Keys(a) + Keys(c) == Keys(a);
    forall i | 0 <= i < |keys| ensures |xs| == |ys| == |keys| && xs[i] == ys[i] {
      SameKeyChild(a, b, c, keys, i);
    }
    assert xs == ys;
  }

  lemma DoubleLooksInherited(v: Js)
    requires v.Obj?
    ensures Build(v, Double(v)) == Build(v, ObjectPrototype)
  {
    SameKeyTrees(v, Double(v), ObjectPrototype);
  }

  lemma SameKeyNode(a: Js, b: Js, c: Js, k: string)
    requires a.Obj? && b.Obj? && c.Obj? && k in a.fields && k in b.fields && k in c.fields
    requires b.fields[k] == c.fields[k] || Build(a.fields[k], b.fields[k]) == Build(a.fields[k], c.fields[k])
    ensures KeyNode(a, b, k) == KeyNode(a, c, k)
  {
  }

  lemma ReplacedField(a: Js, k: string, b: Js, c: Js)
    requires a.Obj? && IsJson(a) && k in a.fields && IsJson(b) && IsJson(c) && b != c
    requires Build(a.fields[k], b) == Build(a.fields[k], c)
    ensures var b', c' := Obj(a.fields[k := b]), Obj(a.fields[k := c]);
            IsJson(b') && IsJson(c') && b' != c' && Build(a, b') == Build(a, c')
  {
    var b', c' := Obj(a.fields[k := b]), Obj(a.fields[k := c]);
    assert b'.fields[k] != c'.fields[k];
    forall x | x in a.fields ensures KeyNode(a, b', x) == KeyNode(a, c', x) {
      SameKeyNode(a, b', c', x);
    }
    SameKeyTrees(a, b', c');
  }

  lemma ReplacedItem(a: Js, i: nat, b: Js, c: Js)
    requires a.Arr? && IsJson(a) && i < |a.items| && IsJson(b) && IsJson(c) && b != c
    requires Build(a.items[i], b) == Build(a.items[i], c)
    ensures var b', c' := Arr(a.items[i := b]), Arr(a.items[i := c]);
            IsJson(b') && IsJson(c') && b' != c' && Build(a, b') == Build(a, c')
  {
    var b', c' := Arr(a.items[i := b]), Arr(a.items[i := c]);
    assert b'.items[i] != c'.items[i];
    forall j | 0 <= j < |a.items| ensures ItemChildren(a, b')[j] == ItemChildren(a, c')[j] {
      ItemChild(a, b', j);
      ItemChild(a, c', j);
    }
    assert ItemChildren(a, b') == ItemChildren(a, c');
  }

  lemma RemovedProtoNode(a: Js, b: Js, c: Js)
    requires a.Obj? && b.Obj? && c.Obj? && PROTO in a.fields && a.fields[PROTO].Obj?
    requires PROTO in b.fields && b.fields[PROTO] == Double(a.fields[PROTO]) && PROTO !in c.fields
    ensures KeyNode(a, b, PROTO) == KeyNode(a, c, PROTO)
  {
    DoubleLooksInherited(a.fields[PROTO]);
    assert Lookup(c, PROTO) == ObjectPrototype;
  }

  lemma DoubleIsJson(a: Js, v: Js)
    requires a.Obj? && IsJson(a) && v.Obj?
    ensures IsJson(Obj(a.fields[PROTO := Double(v)])) && IsJson(Obj(a.fields - {PROTO}))
  {
  }

  /** B with the "__proto__" of A's object replaced by its double, and B without it. */
  lemma RemovedProto(a: Js, b: Js, c: Js)
    requires a.Obj? && PROTO in a.fields && a.fields[PROTO].Obj?
    requires b == Obj(a.fields[PROTO := Double(a.fields[PROTO])]) && c == Obj(a.fields - {PROTO})
    ensures b != c && Build(a, b) == Build(a, c)
  {
    assert PROTO in b.fields && PROTO !in c.fields;
    forall k | k in a.fields ensures KeyNode(a, b, k) == KeyNode(a, c, k) {
      if k == PROTO {
        RemovedProtoNode(a, b, c);
      } else {
        SameKeyNode(a, b, c, k);
      }
    }
    SameKeyTrees(a, b, c);
  }

  lemma {:induction false} Undetermined(a: Js) returns (b: Js, c: Js)
    requires IsJson(a) && ProtoObject(a)
    ensures IsJson(b) && IsJson(c) && b != c && Build(a, b) == Build(a, c)
    decreases a
  {
    if a.Arr? {
      var i :| 0 <= i < |a.items| && ProtoObject(a.items[i]);
      b, c := Undetermined(a.items[i]);
      ReplacedItem(a, i, b, c);
      b, c := Arr(a.items[i := b]), Arr(a.items[i := c]);
    } else if PROTO in a.fields && a.fields[PROTO].Obj? {
      var v := a.fields[PROTO];
      b, c := Obj(a.fields[PROTO := Double(v)]), Obj(a.fields - {PROTO});
      DoubleIsJson(a, v);
      RemovedProto(a, b, c);
    } else {
      var k :| k in a.fields && ProtoObject(a.fields[k]);
      b, c := Undetermined(a.fields[k]);
      ReplacedField(a, k, b, c);
      b, c := Obj(a.fields[k := b]), Obj(a.fields[k := c]);
    }
  }

  /** Against A, the tree tells any two right sides apart. */
  ghost predicate Determines(a: Js) {
    forall b, c | IsJson(b) && IsJson(c) && Build(a, b) == Build(a, c) :: b == c
  }

  /** A and the tree determine B exactly when no "__proto__" of A, at any depth, holds an object. */
  lemma TreeDeterminesRight(a: Js)
    requires IsJson(a)
    ensures Determines(a) <==> !ProtoObject(a)
  {
    if ProtoObject(a) {
      var b, c := Undetermined(a);
    } else {
      forall b, c | IsJson(b) && IsJson(c) && Build(a, b) == Build(a, c) ensures b == c {
        PatchRestores(a, b);
        PatchRestores(a, c);
      }
    }
  }

  /** The smallest case: removing A's {"__proto__": {}} leaves no trace. */
  lemma ProtoKeyHidesRemoval()
    ensures var a := Obj(map[PROTO := Obj(map[])]);
            Build(a, Obj(map[])) == Build(a, a)
  {
    var none: map<string, Js> := map[];
    var a := Obj(map[PROTO := Obj(none)]);
    assert a.fields[PROTO := Double(a.fields[PROTO])] == a.fields && a.fields - {PROTO} == none;
    RemovedProto(a, a, Obj(none));
  }

  /** A missing payload is compared as an empty one: no differences exactly against an empty array
      or an object like the empty one. */
  lemma MissingSideIsEmpty(b: Js)
    requires IsJson(b)
    ensures Build(Undefined, b).diffCount == 0 <==> b == Arr([]) || (b.Obj? && Alike(Obj(map[]), b))
  {
    if b.Obj? {
      NoDifferenceIffAlike(Obj(map[]), b);
    } else if b.Arr? {
      NoDifferenceIffAlike(Arr([]), b);
    }
  }
}
