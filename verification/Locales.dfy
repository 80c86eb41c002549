/**
  The locale validator compares sets of dotted leaf paths in place of key trees.  This module says when
  that stands in exactly for the comparison it is meant to make.
 */
module Locales {
  import opened Wrappers

  /** A parsed locale file; values that are not dictionaries are opaque. */
  datatype Json = Leaf(value: string) | Dict(entries: map<string, Json>)

  function PathTo(prefix: string, key: string): string {
    if prefix == "" then key else prefix + "." + key
  }

  predicate Nested(v: Json) {
    v.Dict? && v.entries != map[]
  }

  /** The set `flatten_keys` returns. */
  function FlatKeys(obj: Json, prefix: string): set<string>
    decreases obj, 0
  {
    match obj
    case Leaf(_) => {}
    case Dict(entries) =>
      set k, p | k in entries && p in EntryKeys(entries[k], PathTo(prefix, k)) :: p
  }

  /** What one entry contributes. */
  function EntryKeys(v: Json, path: string): set<string>
    decreases v, 1
  {
    if Nested(v) then FlatKeys(v, path) else {path}
  }

  method FlattenKeys(obj: Json, prefix: string) returns (keys: set<string>)
    ensures keys == FlatKeys(obj, prefix)
    decreases obj
  {
    keys := {};
    if obj.Dict? {
      var rest := obj.entries.Keys;
      while rest != {}
        invariant rest <= obj.entries.Keys
        invariant forall p :: p in keys <==>
                  exists k :: k in obj.entries && k !in rest && p in EntryKeys(obj.entries[k], PathTo(prefix, k))
        decreases |rest|
      {
        var k :| k in rest;
        rest := rest - {k};
        var path := PathTo(prefix, k);
        var v := obj.entries[k];
        if Nested(v) {
          var below := FlattenKeys(v, path);
          keys := keys + below;
        } else {
          keys := keys + {path};
        }
      }
      assert forall p :: p in FlatKeys(obj, prefix) <==>
          exists k :: k in obj.entries && p in EntryKeys(obj.entries[k], PathTo(prefix, k));
    }
  }

  // ----- key trees -----

  /** A key tree: values erased, an empty dictionary counting as a leaf. */
  datatype Tree = End | Branch(children: map<string, Tree>)

  function Shape(v: Json): Tree {
    if Nested(v) then Branch(map k | k in v.entries :: Shape(v.entries[k])) else End
  }

  /** The key tree of a whole file; a file that is no dictionary has no keys. */
  function KeyTree(file: Json): map<string, Tree> {
    if file.Dict? then map k | k in file.entries :: Shape(file.entries[k]) else map[]
  }

  /** The key sequences from the root to the leaves. */
  function Routes(children: map<string, Tree>): set<seq<string>> {
    RoutesBelow(Branch(children))
  }

  function RoutesBelow(t: Tree): set<seq<string>> {
    match t
    case End => {[]}
    case Branch(children) =>
      set k, r | k in children && r in RoutesBelow(children[k]) :: [k] + r
  }

  function Dotted(prefix: string, route: seq<string>): string
    decreases |route|
  {
    if route == [] then prefix else Dotted(PathTo(prefix, route[0]), route[1..])
  }

  /** `flatten_keys` writes each route of the key tree as a dotted path, and looks at nothing else. */
  lemma {:induction false} FlatKeysAreRoutes(obj: Json, prefix: string)
    ensures FlatKeys(obj, prefix) == set r | r in Routes(KeyTree(obj)) :: Dotted(prefix, r)
    decreases obj, 0
  {
    if obj.Dict? {
      forall k | k in obj.entries
        ensures EntryKeys(obj.entries[k], PathTo(prefix, k))
             == set r | r in RoutesBelow(Shape(obj.entries[k])) :: Dotted(PathTo(prefix, k), r)
      {
        EntryKeysAreRoutes(obj.entries[k], PathTo(prefix, k));
      }
      var tree := KeyTree(obj);
      forall p ensures p in FlatKeys(obj, prefix) <==> exists r :: r in Routes(tree) && Dotted(prefix, r) == p
      {
        if p in FlatKeys(obj, prefix) {
          var k :| k in obj.entries && p in EntryKeys(obj.entries[k], PathTo(prefix, k));
          var r :| r in RoutesBelow(Shape(obj.entries[k])) && p == Dotted(PathTo(prefix, k), r);
          assert [k] + r in Routes(tree);
          assert ([k] + r)[1..] == r;
          assert Dotted(prefix, [k] + r) == p;
        }
        if q :| q in Routes(tree) && Dotted(prefix, q) == p {
          var k, r :| k in tree && r in RoutesBelow(tree[k]) && q == [k] + r;
          assert q[1..] == r;
          assert p in EntryKeys(obj.entries[k], PathTo(prefix, k));
        }
      }
    }
  }

  lemma {:induction false} EntryKeysAreRoutes(v: Json, path: string)
    ensures EntryKeys(v, path) == set r | r in RoutesBelow(Shape(v)) :: Dotted(path, r)
    decreases v, 1
  {
    if Nested(v) {
      FlatKeysAreRoutes(v, path);
      assert Routes(KeyTree(v)) == RoutesBelow(Shape(v));
    } else {
      assert Dotted(path, []) == path;
    }
  }

  // ----- the routes determine the tree -----

  lemma {:induction false} SomeRoute(t: Tree)
    requires Proper(t)
    ensures exists r :: r in RoutesBelow(t)
  {
    match t
    case End =>
      assert [] in RoutesBelow(t);
    case Branch(children) =>
      var k :| k in children;
      SomeRoute(children[k]);
      var r :| r in RoutesBelow(children[k]);
      assert [k] + r in RoutesBelow(t);
  }

  /** Every inner node has a child. */
  predicate Proper(t: Tree) {
    match t
    case End => true
    case Branch(children) => children != map[] && forall k :: k in children ==> Proper(children[k])
  }

  lemma {:induction false} ShapeIsProper(v: Json)
    ensures Proper(Shape(v))
  {
    if Nested(v) {
      forall k | k in v.entries ensures Proper(Shape(v.entries[k])) {
        ShapeIsProper(v.entries[k]);
      }
      var k :| k in v.entries;
      assert k in Shape(v).children;
    }
  }

  lemma RouteSplit(children: map<string, Tree>, k: string, r: seq<string>)
    ensures [k] + r in Routes(children) <==> k in children && r in RoutesBelow(children[k])
  {
    if [k] + r in Routes(children) {
      var k', r' :| k' in children && r' in RoutesBelow(children[k']) && [k] + r == [k'] + r';
      assert ([k] + r)[0] == ([k'] + r')[0] && ([k] + r)[1..] == r && ([k'] + r')[1..] == r';
    }
  }

  predicate ChildrenProper(t: Tree) {
    t.Branch? ==> forall k :: k in t.children ==> Proper(t.children[k])
  }

  lemma {:induction false} RoutesDetermineTree(a: Tree, b: Tree)
    requires ChildrenProper(a) && ChildrenProper(b) && (a.End? <==> b.End?)
    requires RoutesBelow(a) == RoutesBelow(b)
    ensures a == b
    decreases a
  {
    if a.Branch? {
      forall k ensures k in a.children <==> k in b.children {
        SameFirstKey(a.children, b.children, k);
        SameFirstKey(b.children, a.children, k);
      }
      forall k | k in a.children ensures a.children[k] == b.children[k] {
        var c, d := a.children[k], b.children[k];
        forall r ensures r in RoutesBelow(c) <==> r in RoutesBelow(d) {
          RouteSplit(a.children, k, r);
          RouteSplit(b.children, k, r);
        }
        EndHasTheEmptyRoute(c);
        EndHasTheEmptyRoute(d);
        RoutesDetermineTree(c, d);
      }
    }
  }

  lemma EndHasTheEmptyRoute(t: Tree)
    ensures t.End? <==> [] in RoutesBelow(t)
  {
  }

  lemma SameFirstKey(a: map<string, Tree>, b: map<string, Tree>, k: string)
    requires k in a ==> Proper(a[k])
    requires Routes(a) == Routes(b)
    ensures k in a ==> k in b
  {
    if k in a {
      SomeRoute(a[k]);
      var r :| r in RoutesBelow(a[k]);
      RouteSplit(a, k, r);
      RouteSplit(b, k, r);
    }
  }

  // ----- dots -----

  /** A key that a dotted path keeps recognisable. */
  predicate GoodKey(key: string) {
    key != "" && '.' !in key
  }

  /** Every key of the tree is recognisable. */
  predicate GoodTree(t: Tree) {
    t.Branch? ==> forall k :: k in t.children ==> GoodKey(k) && GoodTree(t.children[k])
  }

  predicate GoodRoute(r: seq<string>) {
    forall i :: 0 <= i < |r| ==> GoodKey(r[i])
  }

  /** Every key of the file, at every depth, is non-empty and free of dots. */
  predicate GoodKeys(v: Json) {
    v.Dict? ==> forall k :: k in v.entries ==> GoodKey(k) && GoodKeys(v.entries[k])
  }

  lemma {:induction false} GoodKeysGiveGoodRoutes(v: Json)
    requires GoodKeys(v)
    ensures forall r :: r in RoutesBelow(Shape(v)) ==> GoodRoute(r)
    ensures forall r :: r in Routes(KeyTree(v)) ==> r != [] && GoodRoute(r)
  {
    if v.Dict? {
      forall r | r in Routes(KeyTree(v)) ensures r != [] && GoodRoute(r) {
        var k, below :| k in KeyTree(v) && below in RoutesBelow(KeyTree(v)[k]) && r == [k] + below;
        GoodKeysGiveGoodRoutes(v.entries[k]);
      }
      if Nested(v) {
        assert Routes(KeyTree(v)) == RoutesBelow(Shape(v));
      }
    }
  }

  /** After the first key, every key adds a dot and itself. */
  function DotTail(route: seq<string>): string {
    if route == [] then "" else "." + route[0] + DotTail(route[1..])
  }

  lemma {:induction false} DottedIsPrefixed(prefix: string, route: seq<string>)
    requires prefix != ""
    ensures Dotted(prefix, route) == prefix + DotTail(route)
    decreases |route|
  {
    if route != [] {
      DottedIsPrefixed(PathTo(prefix, route[0]), route[1..]);
    }
  }

  lemma ShorterKeyDiffers(a: string, restA: seq<string>, b: string, restB: seq<string>)
    requires GoodKey(b) && |a| < |b|
    ensures a + DotTail(restA) != b + DotTail(restB)
  {
    var x, y := a + DotTail(restA), b + DotTail(restB);
    assert y[|a|] == b[|a|] != '.';
    if restA != [] {
      assert x[|a|] == '.';
    } else {
      assert |x| == |a| < |y|;
    }
  }

  lemma FirstKeyRecovered(a: string, restA: seq<string>, b: string, restB: seq<string>)
    requires GoodKey(a) && GoodKey(b)
    requires a + DotTail(restA) == b + DotTail(restB)
    ensures a == b && DotTail(restA) == DotTail(restB)
  {
    var x, y := a + DotTail(restA), b + DotTail(restB);
    assert a == x[..|a|] && b == y[..|b|];
    assert DotTail(restA) == x[|a|..] && DotTail(restB) == y[|b|..];
    if |a| < |b| {
      ShorterKeyDiffers(a, restA, b, restB);
    } else if |b| < |a| {
      ShorterKeyDiffers(b, restB, a, restA);
    }
  }

  lemma {:induction false} DotTailInjective(a: seq<string>, b: seq<string>)
    requires GoodRoute(a) && GoodRoute(b) && DotTail(a) == DotTail(b)
    ensures a == b
    decreases |a|
  {
    if a != [] && b != [] {
      assert DotTail(a)[1..] == a[0] + DotTail(a[1..]);
      assert DotTail(b)[1..] == b[0] + DotTail(b[1..]);
      FirstKeyRecovered(a[0], a[1..], b[0], b[1..]);
      DotTailInjective(a[1..], b[1..]);
      assert a == [a[0]] + a[1..] && b == [b[0]] + b[1..];
    }
  }

  lemma DottedInjective(a: seq<string>, b: seq<string>)
    requires a != [] && b != [] && GoodRoute(a) && GoodRoute(b)
    requires Dotted("", a) == Dotted("", b)
    ensures a == b
  {
    DottedIsPrefixed(a[0], a[1..]);
    DottedIsPrefixed(b[0], b[1..]);
    FirstKeyRecovered(a[0], a[1..], b[0], b[1..]);
    DotTailInjective(a[1..], b[1..]);
    assert a == [a[0]] + a[1..] && b == [b[0]] + b[1..];
  }

  // ----- main results -----

  /** Equal key trees always give equal path sets. */
  lemma SameTreeSameKeys(a: Json, b: Json)
    requires KeyTree(a) == KeyTree(b)
    ensures FlatKeys(a, "") == FlatKeys(b, "")
  {
    FlatKeysAreRoutes(a, "");
    FlatKeysAreRoutes(b, "");
  }

  lemma KeyTreeIsProper(v: Json)
    ensures forall k :: k in KeyTree(v) ==> Proper(KeyTree(v)[k])
  {
    forall k | k in KeyTree(v) ensures Proper(KeyTree(v)[k]) {
      ShapeIsProper(v.entries[k]);
    }
  }

  lemma SameKeysSameRoutes(a: Json, b: Json)
    requires GoodKeys(a) && GoodKeys(b) && FlatKeys(a, "") == FlatKeys(b, "")
    ensures Routes(KeyTree(a)) <= Routes(KeyTree(b))
  {
    FlatKeysAreRoutes(a, "");
    FlatKeysAreRoutes(b, "");
    GoodKeysGiveGoodRoutes(a);
    GoodKeysGiveGoodRoutes(b);
    forall r | r in Routes(KeyTree(a)) ensures r in Routes(KeyTree(b)) {
      assert Dotted("", r) in FlatKeys(b, "");
      var s :| s in Routes(KeyTree(b)) && Dotted("", s) == Dotted("", r);
      DottedInjective(r, s);
    }
  }

  /**
    When every key is non-empty and free of dots, comparing the flattened sets is comparing the key trees.
   */
  lemma FlatteningIsExact(a: Json, b: Json)
    requires GoodKeys(a) && GoodKeys(b)
    ensures FlatKeys(a, "") == FlatKeys(b, "") <==> KeyTree(a) == KeyTree(b)
  {
    if FlatKeys(a, "") == FlatKeys(b, "") {
      SameKeysSameRoutes(a, b);
      SameKeysSameRoutes(b, a);
      KeyTreeIsProper(a);
      KeyTreeIsProper(b);
      RoutesDetermineTree(Branch(KeyTree(a)), Branch(KeyTree(b)));
    } else if KeyTree(a) == KeyTree(b) {
      SameTreeSameKeys(a, b);
    }
  }

  /** Whether keys are recognisable is a matter of the key tree alone. */
  lemma {:induction false} GoodKeysOfTree(v: Json)
    ensures GoodKeys(v) <==> GoodTree(Branch(KeyTree(v)))
  {
    if v.Dict? {
      forall k | k in v.entries ensures GoodKeys(v.entries[k]) <==> GoodTree(Shape(v.entries[k])) {
        GoodKeysOfTree(v.entries[k]);
      }
    }
  }

  /**
    What the comparison decides, given a master whose keys are all non-empty and free of dots: the other file
    has the master's key tree exactly when the flattened sets are equal and its own keys are such keys too.
   */
  lemma ComparisonDecides(master: Json, other: Json)
    requires GoodKeys(master)
    ensures KeyTree(other) == KeyTree(master) <==> FlatKeys(other, "") == FlatKeys(master, "") && GoodKeys(other)
  {
    if KeyTree(other) == KeyTree(master) {
      GoodKeysOfTree(master);
      GoodKeysOfTree(other);
      SameTreeSameKeys(other, master);
    } else if GoodKeys(other) {
      FlatteningIsExact(other, master);
    }
  }

  /** The one-level file whose keys are the dotted paths of another. */
  function FlatTwin(v: Json): Json {
    Dict(map p | p in FlatKeys(v, "") :: Leaf(""))
  }

  /**
    Without that condition the check is fooled by every file that nests: its one-level twin passes
    against it, though the trees differ.
   */
  lemma TwinPasses(v: Json)
    ensures FlatKeys(FlatTwin(v), "") == FlatKeys(v, "")
    ensures (exists k :: k in KeyTree(v) && KeyTree(v)[k].Branch?) ==> KeyTree(FlatTwin(v)) != KeyTree(v)
  {
    LeavesFlatten(FlatKeys(v, ""));
    hide FlatKeys;
    var twin := FlatTwin(v);
    if k :| k in KeyTree(v) && KeyTree(v)[k].Branch? {
      assert k in KeyTree(twin) ==> KeyTree(twin)[k] == End;
    }
  }

  function Wrapped(v: Json): Json {
    Dict(map["" := v])
  }

  /** An empty key disappears from the paths: a nested file passes against itself put under the key "". */
  lemma WrappedPasses(v: Json)
    requires Nested(v)
    ensures FlatKeys(Wrapped(v), "") == FlatKeys(v, "") && KeyTree(Wrapped(v)) != KeyTree(v)
  {
    var w := Wrapped(v);
    assert EntryKeys(w.entries[""], PathTo("", "")) == FlatKeys(v, "");
    assert "" in w.entries;
    assert KeyTree(w)[""] == Branch(KeyTree(v));
    if KeyTree(w) == KeyTree(v) {
      NotItsOwnChild(Branch(KeyTree(v)), "");
    }
  }

  function Chain(t: Tree, k: string): nat {
    if t.Branch? && k in t.children then 1 + Chain(t.children[k], k) else 0
  }

  lemma NotItsOwnChild(t: Tree, k: string)
    requires t.Branch? && k in t.children
    ensures t.children[k] != t
  {
    assert Chain(t, k) == 1 + Chain(t.children[k], k);
  }

  lemma LeavesFlatten(keys: set<string>)
    ensures FlatKeys(Dict(map p | p in keys :: Leaf("")), "") == keys
  {
    var v := Dict(map p | p in keys :: Leaf(""));
    assert forall k :: k in v.entries ==> EntryKeys(v.entries[k], PathTo("", k)) == {k};
    assert forall p :: p in keys ==> p in v.entries && p in EntryKeys(v.entries[p], PathTo("", p));
  }

  // ----- the command -----

  const OTHERS := ["de", "fr", "es", "it"]

  predicate Matches(master: Json, files: map<string, Json>, lang: string) {
    lang in files && FlatKeys(files[lang], "") == FlatKeys(master, "")
  }

  /** The exit code of the validator; `files` holds the locale files that exist. */
  method Validate(master: Option<Json>, files: map<string, Json>) returns (exit: int)
    ensures master.None? ==> exit == 2
    ensures master.Some? ==>
              exit == if forall i :: 0 <= i < |OTHERS| ==> Matches(master.value, files, OTHERS[i]) then 0 else 1
    ensures exit == 0 <==>
              && master.Some?
              && forall lang :: lang in {"de", "fr", "es", "it"} ==>
                   lang in files && FlatKeys(files[lang], "") == FlatKeys(master.value, "")
  {
    if master.None? {
      return 2;
    }
    var masterKeys := FlattenKeys(master.value, "");
    var fail := false;
    for i := 0 to |OTHERS|
      invariant fail <==> exists j :: 0 <= j < i && !Matches(master.value, files, OTHERS[j])
    {
      var lang := OTHERS[i];
      if lang !in files {
        fail := true;
        continue;
      }
      var keys := FlattenKeys(files[lang], "");
      var missing, extra := masterKeys - keys, keys - masterKeys;
      assert missing == {} && extra == {} <==> masterKeys == keys by {
        if missing == {} && extra == {} {
          assert forall k :: k in masterKeys && k !in keys ==> k in missing;
          assert forall k :: k in keys && k !in masterKeys ==> k in extra;
        }
      }
      if missing == {} && extra == {} {
        continue;
      }
      fail := true;
    }
    exit := if fail then 1 else 0;
    assert OTHERS[0] == "de" && OTHERS[1] == "fr" && OTHERS[2] == "es" && OTHERS[3] == "it";
  }

  /**
    With a well-formed master, a locale has its key tree exactly when the validator reports a match and the
    locale's keys are well-formed too.
   */
  lemma MatchMeansSameTree(master: Json, files: map<string, Json>, lang: string)
    requires GoodKeys(master)
    ensures lang in files && KeyTree(files[lang]) == KeyTree(master) <==>
            Matches(master, files, lang) && GoodKeys(files[lang])
  {
    if lang in files {
      ComparisonDecides(master, files[lang]);
    }
  }
}
