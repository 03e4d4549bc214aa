/**
 * Parser discovery and registration: the scan of the installed parser
 * package (given as a value, since the filesystem and the import machinery
 * are outside the model), the dropdown sort order, and the two module-level
 * caches behind `get_parsers` and `get_parser_by_name`.
 */
module Registry {
  import opened Wrappers
  import opened Text
  import opened BaseParser
  import Mb7621
  import Mb8600Hnap

  /** A parser class, identified by the module that defines it and its class name. */
  datatype ParserClass = ParserClass(definedIn: string, className: string, descriptor: ParserDescriptor)

  /** What `getattr(module, name)` yields: a class (with how it relates to `ModemParser`) or anything else. */
  datatype AttrValue =
    | Other
    | Class(cls: ParserClass, isParserSubclass: bool, isModemParser: bool)

  /** One name in `dir(module)`. */
  datatype Attr = Attr(name: string, value: AttrValue)

  /** A module `pkgutil.iter_modules` reports, whether importing it succeeds, and its attributes. */
  datatype ModuleFile = ModuleFile(name: string, imports: bool, attrs: seq<Attr>)

  /** An entry of the parser package directory. */
  datatype DirEntry = DirEntry(name: string, isDir: bool, modules: seq<ModuleFile>)

  /** Module names that are never imported as parsers. */
  const SkippedModules: set<string> := {"base_parser", "__init__", "parser_template"}

  /** `importlib.import_module(f".{dir}.{module}", package=pkg).__name__`. */
  function ModuleName(pkg: string, dir: string, moduleFile: string): string {
    pkg + "." + dir + "." + moduleFile
  }

  /** `map` followed by concatenation, from the back so that a loop can extend it one element at a time. */
  function FlatMap<A, B>(f: A -> seq<B>, xs: seq<A>): seq<B> {
    if |xs| == 0 then [] else FlatMap(f, xs[..|xs| - 1]) + f(xs[|xs| - 1])
  }

  lemma {:induction false} FlatMapMember<A, B>(f: A -> seq<B>, xs: seq<A>, y: B)
    ensures y in FlatMap(f, xs) <==> exists x :: x in xs && y in f(x)
  {
    if |xs| > 0 {
      var init := xs[..|xs| - 1];
      FlatMapMember(f, init, y);
      assert xs == init + [xs[|xs| - 1]];
      if y in f(xs[|xs| - 1]) {
        assert xs[|xs| - 1] in xs;
      }
      if x :| x in init && y in f(x) {
        assert x in xs;
      }
      if x :| x in xs && y in f(x) {
        assert x in init || x == xs[|xs| - 1];
      }
    }
  }

  /** The class test applied to each attribute: a strict subclass of `ModemParser` defined in that module. */
  predicate Registers(a: Attr, moduleName: string) {
    && a.value.Class?
    && a.value.isParserSubclass
    && !a.value.isModemParser
    && a.value.cls.definedIn == moduleName
  }

  function AttrParsers(moduleName: string, a: Attr): seq<ParserClass> {
    if Registers(a, moduleName) then [a.value.cls] else []
  }

  /** A module contributes only when it is not skipped by name and imports cleanly. */
  predicate Loads(m: ModuleFile) {
    m.name !in SkippedModules && m.imports
  }

  function ModuleParsers(pkg: string, dir: string, m: ModuleFile): seq<ParserClass> {
    if Loads(m) then
      var name := ModuleName(pkg, dir, m.name);
      FlatMap((a: Attr) => AttrParsers(name, a), m.attrs)
    else []
  }

  /** Only sub-directories whose name does not start with `__` are searched. */
  predicate Searched(d: DirEntry) {
    d.isDir && !StartsWith(d.name, "__")
  }

  function DirParsers(pkg: string, d: DirEntry): seq<ParserClass> {
    if Searched(d) then FlatMap((m: ModuleFile) => ModuleParsers(pkg, d.name, m), d.modules) else []
  }

  /** Every parser the scan collects, in scan order, before sorting. */
  function Collected(pkg: string, tree: seq<DirEntry>): seq<ParserClass> {
    FlatMap((d: DirEntry) => DirParsers(pkg, d), tree)
  }

  /**
   * A class is collected exactly when it is a strict `ModemParser` subclass
   * defined in a module that loads from a searched directory; a module that
   * fails to import contributes nothing and does not stop the others.
   */
  lemma CollectedMember(pkg: string, tree: seq<DirEntry>, p: ParserClass)
    ensures p in Collected(pkg, tree) <==>
      exists d, m, a :: d in tree && Searched(d) && m in d.modules && Loads(m) && a in m.attrs
        && Registers(a, ModuleName(pkg, d.name, m.name)) && p == a.value.cls
  {
    FlatMapMember((d: DirEntry) => DirParsers(pkg, d), tree, p);
    forall d | d in tree && Searched(d)
      ensures p in DirParsers(pkg, d) <==> exists m :: m in d.modules && p in ModuleParsers(pkg, d.name, m)
    {
      FlatMapMember((m: ModuleFile) => ModuleParsers(pkg, d.name, m), d.modules, p);
    }
    forall d, m | d in tree && m in d.modules && Loads(m)
      ensures var name := ModuleName(pkg, d.name, m.name);
        p in ModuleParsers(pkg, d.name, m) <==> exists a :: a in m.attrs && Registers(a, name) && p == a.value.cls
    {
      var name := ModuleName(pkg, d.name, m.name);
      FlatMapMember((a: Attr) => AttrParsers(name, a), m.attrs, p);
    }
  }

  // ---- Ordering ----

  /** Python's `<` on strings: lexicographic by code point. */
  predicate StrLess(a: string, b: string) {
    if |a| == 0 then |b| > 0
    else if |b| == 0 then false
    else if a[0] == b[0] then StrLess(a[1..], b[1..])
    else a[0] < b[0]
  }

  lemma {:induction false} StrLessIrreflexive(a: string)
    ensures !StrLess(a, a)
  {
    if |a| > 0 {
      StrLessIrreflexive(a[1..]);
    }
  }

  lemma {:induction false} StrLessTrans(a: string, b: string, c: string)
    requires StrLess(a, b) && StrLess(b, c)
    ensures StrLess(a, c)
  {
    if |a| > 0 && |b| > 0 && |c| > 0 && a[0] == b[0] && b[0] == c[0] {
      StrLessTrans(a[1..], b[1..], c[1..]);
    }
  }

  lemma {:induction false} StrLessTotal(a: string, b: string)
    ensures a == b || StrLess(a, b) || StrLess(b, a)
  {
    if |a| > 0 && |b| > 0 && a[0] == b[0] {
      StrLessTotal(a[1..], b[1..]);
      if a[1..] == b[1..] {
        assert a == [a[0]] + a[1..] && b == [b[0]] + b[1..];
      }
    }
  }

  /** A `sort_key` value. */
  type Key = (string, string)

  /** Python's `<` on pairs of strings. */
  predicate KeyLess(x: Key, y: Key) {
    StrLess(x.0, y.0) || (x.0 == y.0 && StrLess(x.1, y.1))
  }

  lemma KeyLessIrreflexive(x: Key)
    ensures !KeyLess(x, x)
  {
    StrLessIrreflexive(x.0);
    StrLessIrreflexive(x.1);
  }

  lemma KeyLessTrans(x: Key, y: Key, z: Key)
    requires KeyLess(x, y) && KeyLess(y, z)
    ensures KeyLess(x, z)
  {
    if StrLess(x.0, y.0) && StrLess(y.0, z.0) {
      StrLessTrans(x.0, y.0, z.0);
    } else if x.0 == y.0 && y.0 == z.0 {
      StrLessTrans(x.1, y.1, z.1);
    }
  }

  lemma KeyLessTotal(x: Key, y: Key)
    ensures x == y || KeyLess(x, y) || KeyLess(y, x)
  {
    StrLessTotal(x.0, y.0);
    StrLessTotal(x.1, y.1);
  }

  /** "Not after" is transitive, as a sort needs. */
  lemma KeyNotAfterTrans(x: Key, y: Key, z: Key)
    requires !KeyLess(y, x) && !KeyLess(z, y)
    ensures !KeyLess(z, x)
  {
    if KeyLess(z, x) {
      KeyLessTotal(x, y);
      KeyLessTotal(y, z);
      if x == y {
      } else if y == z {
      } else {
        KeyLessTrans(z, x, y);
      }
    }
  }

  /** The key that sorts after every manufacturer and every name below it. */
  const Last: string := "ZZZZ"

  /** `sort_key`: the fallback manufacturer sorts last, generic parsers last within their manufacturer. */
  function SortKey(p: ParserClass): Key {
    if p.descriptor.manufacturer == "Unknown" then (Last, Last)
    else if Contains(p.descriptor.name, "Generic") then (p.descriptor.manufacturer, Last)
    else (p.descriptor.manufacturer, p.descriptor.name)
  }

  /** Nondecreasing in `sort_key`, between any two positions. */
  predicate Sorted(s: seq<ParserClass>) {
    forall i, j :: 0 <= i < j < |s| ==> !KeyLess(SortKey(s[j]), SortKey(s[i]))
  }

  /** Places `x` after every element whose key is not greater than its own. */
  function Insert(s: seq<ParserClass>, x: ParserClass): seq<ParserClass> {
    if |s| == 0 then [x]
    else if KeyLess(SortKey(x), SortKey(s[|s| - 1])) then Insert(s[..|s| - 1], x) + [s[|s| - 1]]
    else s + [x]
  }

  /** `list.sort(key=sort_key)`: a stable sort, here written as insertion in scan order. */
  function SortByKey(ps: seq<ParserClass>): seq<ParserClass> {
    if |ps| == 0 then [] else Insert(SortByKey(ps[..|ps| - 1]), ps[|ps| - 1])
  }

  /** The elements with key `k`, in order. */
  function WithKey(s: seq<ParserClass>, k: Key): seq<ParserClass> {
    if |s| == 0 then []
    else WithKey(s[..|s| - 1], k) + (if SortKey(s[|s| - 1]) == k then [s[|s| - 1]] else [])
  }

  lemma {:induction false} WithKeyConcat(a: seq<ParserClass>, b: seq<ParserClass>, k: Key)
    ensures WithKey(a + b, k) == WithKey(a, k) + WithKey(b, k)
  {
    if |b| > 0 {
      var b' := b[..|b| - 1];
      assert (a + b)[..|a + b| - 1] == a + b';
      WithKeyConcat(a, b', k);
    } else {
      assert a + b == a;
    }
  }

  lemma {:induction false} InsertPermutes(s: seq<ParserClass>, x: ParserClass)
    ensures multiset(Insert(s, x)) == multiset(s) + multiset{x}
  {
    if |s| > 0 && KeyLess(SortKey(x), SortKey(s[|s| - 1])) {
      InsertPermutes(s[..|s| - 1], x);
      assert s == s[..|s| - 1] + [s[|s| - 1]];
    }
  }

  lemma {:induction false} InsertSorted(s: seq<ParserClass>, x: ParserClass)
    requires Sorted(s)
    ensures Sorted(Insert(s, x))
  {
    if |s| > 0 {
      var l := s[|s| - 1];
      var init := s[..|s| - 1];
      if KeyLess(SortKey(x), SortKey(l)) {
        InsertSorted(init, x);
        InsertPermutes(init, x);
        var r := Insert(init, x);
        forall i | 0 <= i < |r| ensures !KeyLess(SortKey(l), SortKey(r[i])) {
          assert r[i] in multiset(r);
          if r[i] == x {
            KeyLessIrreflexive(SortKey(x));
            if KeyLess(SortKey(l), SortKey(x)) {
              KeyLessTrans(SortKey(x), SortKey(l), SortKey(x));
            }
          } else {
            assert r[i] in init;
          }
        }
      } else {
        forall i | 0 <= i < |s| ensures !KeyLess(SortKey(x), SortKey(s[i])) {
          if i < |s| - 1 {
            KeyNotAfterTrans(SortKey(s[i]), SortKey(l), SortKey(x));
          }
        }
      }
    }
  }

  lemma {:induction false} InsertStable(s: seq<ParserClass>, x: ParserClass, k: Key)
    ensures WithKey(Insert(s, x), k) == WithKey(s, k) + (if SortKey(x) == k then [x] else [])
  {
    if |s| == 0 {
      assert WithKey([x], k) == WithKey([], k) + (if SortKey(x) == k then [x] else []) by {
        assert [x][..0] == [];
      }
    } else {
      var l := s[|s| - 1];
      var init := s[..|s| - 1];
      if KeyLess(SortKey(x), SortKey(l)) {
        InsertStable(init, x, k);
        WithKeyConcat(Insert(init, x), [l], k);
        assert [l][..0] == [];
        if SortKey(x) == k {
          KeyLessIrreflexive(k);
        }
      } else {
        WithKeyConcat(s, [x], k);
        assert [x][..0] == [];
      }
    }
  }

  /** The sorted list is nondecreasing in `sort_key`. */
  lemma {:induction false} SortByKeySorted(ps: seq<ParserClass>)
    ensures Sorted(SortByKey(ps))
  {
    if |ps| > 0 {
      SortByKeySorted(ps[..|ps| - 1]);
      InsertSorted(SortByKey(ps[..|ps| - 1]), ps[|ps| - 1]);
    }
  }

  /** The sorted list holds exactly the collected classes. */
  lemma {:induction false} SortByKeyPermutes(ps: seq<ParserClass>)
    ensures multiset(SortByKey(ps)) == multiset(ps)
  {
    if |ps| > 0 {
      var init := ps[..|ps| - 1];
      var last := ps[|ps| - 1];
      calc {
        multiset(SortByKey(ps));
        multiset(Insert(SortByKey(init), last));
        { InsertPermutes(SortByKey(init), last); }
        multiset(SortByKey(init)) + multiset{last};
        { SortByKeyPermutes(init); }
        multiset(init) + multiset{last};
        { assert ps == init + [last]; }
        multiset(ps);
      }
    }
  }

  /** Stability: the classes that share a key keep their discovery order. */
  lemma {:induction false} SortByKeyStable(ps: seq<ParserClass>, k: Key)
    ensures WithKey(SortByKey(ps), k) == WithKey(ps, k)
  {
    if |ps| > 0 {
      var init := ps[..|ps| - 1];
      SortByKeyStable(init, k);
      InsertStable(SortByKey(init), ps[|ps| - 1], k);
    }
  }

  /** In a sorted list every "Unknown" parser comes after each parser of a manufacturer ordered below "ZZZZ". */
  lemma UnknownLast(s: seq<ParserClass>, i: nat, j: nat)
    requires Sorted(s) && i < |s| && j < |s|
    requires s[i].descriptor.manufacturer == "Unknown"
    requires s[j].descriptor.manufacturer != "Unknown" && StrLess(s[j].descriptor.manufacturer, Last)
    ensures j < i
  {
    assert KeyLess(SortKey(s[j]), SortKey(s[i]));
  }

  /** Within one manufacturer, a parser named "Generic" comes after the others whose names are ordered below "ZZZZ". */
  lemma GenericLast(s: seq<ParserClass>, i: nat, j: nat)
    requires Sorted(s) && i < |s| && j < |s|
    requires s[i].descriptor.manufacturer == s[j].descriptor.manufacturer != "Unknown"
    requires Contains(s[i].descriptor.name, "Generic")
    requires !Contains(s[j].descriptor.name, "Generic") && StrLess(s[j].descriptor.name, Last)
    ensures j < i
  {
    assert KeyLess(SortKey(s[j]), SortKey(s[i]));
  }

  /** A common prefix does not change the order of two strings. */
  lemma {:induction false} StrLessPrefix(p: string, a: string, b: string)
    requires StrLess(a, b)
    ensures StrLess(p + a, p + b)
  {
    if |p| > 0 {
      StrLessPrefix(p[1..], a, b);
      assert (p + a)[0] == (p + b)[0] == p[0];
      assert (p + a)[1..] == p[1..] + a && (p + b)[1..] == p[1..] + b;
    } else {
      assert p + a == a && p + b == b;
    }
  }

  /** Within one manufacturer, two non-generic parsers are ordered by name alone, whatever their priorities. */
  lemma NameOrderWithinManufacturer(s: seq<ParserClass>, i: nat, j: nat)
    requires Sorted(s) && i < |s| && j < |s|
    requires s[i].descriptor.manufacturer == s[j].descriptor.manufacturer != "Unknown"
    requires !Contains(s[i].descriptor.name, "Generic") && !Contains(s[j].descriptor.name, "Generic")
    requires StrLess(s[j].descriptor.name, s[i].descriptor.name)
    ensures j < i
  {
    StrLessIrreflexive(s[j].descriptor.name);
    assert KeyLess(SortKey(s[j]), SortKey(s[i]));
  }

  /** A name without a capital G never counts as generic. */
  lemma NotGeneric(name: string)
    requires 'G' !in name
    ensures !Contains(name, "Generic")
  {
    ContainsFirst(name, "Generic");
  }

  /** "Motorola MB7621" sorts before "Motorola MB8600 (HNAP)". */
  lemma MotorolaNamesOrdered()
    ensures StrLess("Motorola MB7621", "Motorola MB8600 (HNAP)")
  {
  }

  /** The MB7621's name does not count as generic. */
  lemma Mb7621NotGeneric()
    ensures !Contains("Motorola MB7621", "Generic")
  {
    NotGeneric("Motorola MB7621");
  }

  /** The MB8600 HNAP parser's name does not count as generic. */
  lemma Mb8600NotGeneric()
    ensures !Contains("Motorola MB8600 (HNAP)", "Generic")
  {
    NotGeneric("Motorola MB8600 (HNAP)");
  }

  /**
   * The sorted list puts the MB7621 (priority 100) before the MB8600 HNAP
   * parser (priority 101): within Motorola the priorities ascend, they are
   * not in descending order.
   */
  lemma MotorolaPrioritiesAscend(s: seq<ParserClass>, i: nat, j: nat)
    requires Sorted(s) && i < |s| && j < |s|
    requires s[i].descriptor == Mb8600Hnap.Descriptor && s[j].descriptor == Mb7621.Descriptor
    ensures j < i && s[j].descriptor.priority < s[i].descriptor.priority
  {
    MotorolaNamesOrdered();
    Mb7621NotGeneric();
    Mb8600NotGeneric();
    NameOrderWithinManufacturer(s, i, j);
  }

  // ---- Name index ----

  /** The dictionary `{cls.name: cls for cls in parsers}`, filled in list order. */
  function NameIndex(ps: seq<ParserClass>): map<string, ParserClass> {
    if |ps| == 0 then map[]
    else NameIndex(ps[..|ps| - 1])[ps[|ps| - 1].descriptor.name := ps[|ps| - 1]]
  }

  /** A name is indexed iff some parser has it, and then it maps to the last parser with that name. */
  lemma {:induction false} NameIndexLatest(ps: seq<ParserClass>, name: string)
    ensures name in NameIndex(ps) <==> exists i :: 0 <= i < |ps| && ps[i].descriptor.name == name
    ensures name in NameIndex(ps) ==>
      exists i :: 0 <= i < |ps| && NameIndex(ps)[name] == ps[i] && ps[i].descriptor.name == name
        && forall j :: i < j < |ps| ==> ps[j].descriptor.name != name
  {
    NameIndexDomain(ps, name);
    if name in NameIndex(ps) {
      var i := NameIndexEntry(ps, name);
    }
  }

  lemma {:induction false} NameIndexDomain(ps: seq<ParserClass>, name: string)
    ensures name in NameIndex(ps) <==> exists i :: 0 <= i < |ps| && ps[i].descriptor.name == name
  {
    if |ps| > 0 {
      var init := ps[..|ps| - 1];
      var last := ps[|ps| - 1];
      assert NameIndex(ps) == NameIndex(init)[last.descriptor.name := last];
      NameIndexDomain(init, name);
      if last.descriptor.name == name {
        assert ps[|ps| - 1].descriptor.name == name;
      } else {
        if name in NameIndex(init) {
          var i :| 0 <= i < |init| && init[i].descriptor.name == name;
          assert ps[i] == init[i];
        }
        if i :| 0 <= i < |ps| && ps[i].descriptor.name == name {
          assert init[i] == ps[i];
        }
      }
    }
  }

  /** The position of the parser a name is indexed to: the last one with that name. */
  lemma {:induction false} NameIndexEntry(ps: seq<ParserClass>, name: string) returns (i: nat)
    requires name in NameIndex(ps)
    ensures i < |ps| && NameIndex(ps)[name] == ps[i] && ps[i].descriptor.name == name
    ensures forall j :: i < j < |ps| ==> ps[j].descriptor.name != name
  {
    var init := ps[..|ps| - 1];
    var last := ps[|ps| - 1];
    assert NameIndex(ps) == NameIndex(init)[last.descriptor.name := last];
    if last.descriptor.name == name {
      i := |ps| - 1;
    } else {
      i := NameIndexEntry(init, name);
      assert ps[i] == init[i];
      forall j | i < j < |ps| ensures ps[j].descriptor.name != name {
        if j < |ps| - 1 {
          assert ps[j] == init[j];
        }
      }
    }
  }

  // ---- The caches ----

  /** The module state of the parser package: the installed files and the two caches. */
  class Registry {
    /** The package's dotted name, prefix of every parser module's `__name__`. */
    const package: string
    /** The contents of the package directory, which discovery walks. */
    const installed: seq<DirEntry>
    /** `_PARSER_CACHE`. */
    var parserCache: Option<seq<ParserClass>>
    /** `_PARSER_NAME_CACHE`. */
    var nameCache: Option<map<string, ParserClass>>

    /** A built name index always indexes the parser list currently cached. */
    ghost predicate Valid()
      reads this
    {
      nameCache.Some? ==> parserCache.Some? && nameCache.value == NameIndex(parserCache.value)
    }

    /** The state after importing the package: both caches empty. */
    constructor(package: string, installed: seq<DirEntry>)
      ensures this.package == package && this.installed == installed
      ensures parserCache == None && nameCache == None && Valid()
    {
      this.package := package;
      this.installed := installed;
      parserCache := None;
      nameCache := None;
    }

    /** What a discovery run returns. */
    function Discovered(): seq<ParserClass> {
      SortByKey(Collected(package, installed))
    }

    /** The classes a module contributes, in attribute order. */
    method ScanModule(dir: string, m: ModuleFile) returns (found: seq<ParserClass>)
      ensures found == ModuleParsers(package, dir, m)
    {
      found := [];
      if m.name in SkippedModules || !m.imports {
        return;
      }
      var name := ModuleName(package, dir, m.name);
      var f := (a: Attr) => AttrParsers(name, a);
      var k := 0;
      while k < |m.attrs|
        invariant k <= |m.attrs| && found == FlatMap(f, m.attrs[..k])
      {
        var a := m.attrs[k];
        if a.value.Class? && a.value.isParserSubclass && !a.value.isModemParser && a.value.cls.definedIn == name {
          found := found + [a.value.cls];
        }
        assert m.attrs[..k + 1][..k] == m.attrs[..k];
        k := k + 1;
      }
      assert m.attrs[..k] == m.attrs;
    }

    /** The scan over directories and their modules, then the sort. */
    method Discover() returns (parsers: seq<ParserClass>)
      ensures parsers == Discovered()
    {
      parsers := [];
      var f := (d: DirEntry) => DirParsers(package, d);
      var i := 0;
      while i < |installed|
        invariant i <= |installed| && parsers == FlatMap(f, installed[..i])
      {
        var d := installed[i];
        if d.isDir && !StartsWith(d.name, "__") {
          var g := (m: ModuleFile) => ModuleParsers(package, d.name, m);
          var fromDir := [];
          var j := 0;
          while j < |d.modules|
            invariant j <= |d.modules| && fromDir == FlatMap(g, d.modules[..j])
          {
            var found := ScanModule(d.name, d.modules[j]);
            fromDir := fromDir + found;
            assert d.modules[..j + 1][..j] == d.modules[..j];
            j := j + 1;
          }
          assert d.modules[..j] == d.modules;
          parsers := parsers + fromDir;
        }
        assert installed[..i + 1][..i] == installed[..i];
        i := i + 1;
      }
      assert installed[..i] == installed;
      parsers := SortByKey(parsers);
    }

    /** `get_parsers(use_cache)`. */
    method GetParsers(useCache: bool) returns (parsers: seq<ParserClass>)
      requires Valid()
      modifies this
      ensures Valid()
      ensures useCache && old(parserCache).Some? ==>
        parsers == old(parserCache).value && parserCache == old(parserCache) && nameCache == old(nameCache)
      ensures !(useCache && old(parserCache).Some?) ==>
        && parsers == Discovered() && parserCache == Some(parsers)
        && nameCache == (if useCache then old(nameCache) else None)
    {
      if useCache && parserCache.Some? {
        return parserCache.value;
      }
      if !useCache {
        nameCache := None;
      }
      parsers := Discover();
      parserCache := Some(parsers);
    }

    /** `get_parser_by_name(name)`: builds the index once from `get_parsers()`, then looks the name up. */
    method GetParserByName(name: string) returns (r: Option<ParserClass>)
      requires Valid()
      modifies this
      ensures Valid()
      ensures var ps := if old(parserCache).Some? then old(parserCache).value else Discovered();
        && parserCache == Some(ps) && nameCache == Some(NameIndex(ps))
        && r == (if name in NameIndex(ps) then Some(NameIndex(ps)[name]) else None)
    {
      if nameCache.None? {
        var ps := GetParsers(true);
        var index := map[];
        var i := 0;
        while i < |ps|
          invariant i <= |ps| && index == NameIndex(ps[..i])
        {
          assert ps[..i + 1][..i] == ps[..i];
          index := index[ps[i].descriptor.name := ps[i]];
          i := i + 1;
        }
        assert ps[..i] == ps;
        nameCache := Some(index);
      }
      var index := nameCache.value;
      if name in index {
        r := Some(index[name]);
      } else {
        r := None;
      }
    }
  }

  /** A parser whose name no other collected parser shares is what the sorted list's index gives for that name. */
  lemma UniqueNameFound(ps: seq<ParserClass>, p: ParserClass)
    requires p in ps
    requires forall q :: q in ps && q.descriptor.name == p.descriptor.name ==> q == p
    ensures var index := NameIndex(SortByKey(ps));
      p.descriptor.name in index && index[p.descriptor.name] == p
  {
    var s := SortByKey(ps);
    SortByKeyPermutes(ps);
    assert p in multiset(s);
    NameIndexLatest(s, p.descriptor.name);
    var i :| 0 <= i < |s| && NameIndex(s)[p.descriptor.name] == s[i] && s[i].descriptor.name == p.descriptor.name;
    assert s[i] in multiset(ps);
  }
}
