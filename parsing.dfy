/**
 * The type parser of the generator (parsing.go): from a named type and
 * its method set it assembles the metadata the templates need. It walks
 * every method signature for the packages it mentions, removes repeated
 * paths while keeping first-seen order, decides which imports the
 * generated file needs, and records each exported method's rendered
 * parameter and result types.
 */
module Parsing {
  import opened Wrappers
  import opened Text
  import opened GoTypes
  import opened TemplateModels

  /** Why parsing a type fails. */
  datatype ParseError =
    | EmptyMethodSet(typ: GoType)   // the type has no exported methods
    | InvalidType(shape: GoType)    // the import walk met a shape it does not handle
    | NotASignature(methodName: string) // a method's type is not a function signature
    | NotANamedType                 // the type has no declared name

  // ---------------------------------------------------------------------
  // Package paths

  const Vendor: string := "/vendor/"

  /** Resolves a vendored package path to the path it vendors. */
  function StripVendor(path: string): (r: string)
    ensures !Contains(path, Vendor) ==> r == path
    ensures Contains(path, Vendor) ==>
      exists i :: IsFirstOccurrence(path, Vendor, i) && r == path[i + |Vendor|..]
    ensures HasSuffix(path, r)
  {
    var i := Index(path, Vendor);
    if i > -1 then path[i + |Vendor|..] else path
  }

  /** The (vendor-stripped) path of the package that declares `t`, or "" when there is none. */
  function TypePackagePath(t: GoType): (r: string)
    ensures !(t.Named? && t.pkg.Some?) ==> r == ""
    ensures t.Named? && t.pkg.Some? ==> r == StripVendor(t.pkg.value.path)
  {
    if !t.Named? then ""
    else if t.pkg.None? then ""
    else StripVendor(t.pkg.value.path)
  }

  /** The import-path suffix of the circuit library's major version: none before v3, "/v<n>" from v3 on. */
  function CircuitVersionSuffix(majorVersion: int): (r: string)
    ensures majorVersion < 3 <==> r == ""
    ensures majorVersion >= 3 ==>
      |r| > 2 && HasPrefix(r, "/v") && IsDecimal(r[2..]) && r[2] != '0' && DecimalValue(r[2..]) == majorVersion
  {
    if majorVersion < 3 then ""
    else
      DecimalRoundTrip(majorVersion);
      var digits := NatToString(majorVersion);
      assert ("/v" + digits)[2..] == digits;
      "/v" + digits
  }

  // ---------------------------------------------------------------------
  // The import walk over a type

  function Flatten<T>(ss: seq<seq<T>>): seq<T>
    decreases |ss|
  {
    if |ss| == 0 then [] else Flatten(ss[..|ss| - 1]) + ss[|ss| - 1]
  }

  lemma {:induction false} FlattenAppend<T>(a: seq<seq<T>>, b: seq<seq<T>>)
    ensures Flatten(a + b) == Flatten(a) + Flatten(b)
    decreases |b|
  {
    if |b| == 0 {
      assert a + b == a;
    } else {
      var init := b[..|b| - 1];
      assert (a + b)[..|a + b| - 1] == a + init;
      FlattenAppend(a, init);
    }
  }

  lemma FlattenSplit<T>(ss: seq<seq<T>>, i: nat)
    requires i < |ss|
    ensures Flatten(ss) == Flatten(ss[..i]) + ss[i] + Flatten(ss[i + 1..])
  {
    var a, b := ss[..i + 1], ss[i + 1..];
    assert ss == a + b;
    FlattenAppend(a, b);
    assert a[..|a| - 1] == ss[..i];
    assert Flatten(a) == Flatten(ss[..i]) + ss[i];
  }

  /**
   * The shapes the walk stops at, in the order it meets them: the
   * parameters then the results of a signature, the element of a pointer
   * or slice, the key then the value of a map; every other type is met
   * as itself.
   */
  function Leaves(t: GoType): seq<GoType>
    decreases t
  {
    match t
    case Signature(ps, rs, _) =>
      Flatten(seq(|ps|, i requires 0 <= i < |ps| => Leaves(ps[i])))
      + Flatten(seq(|rs|, i requires 0 <= i < |rs| => Leaves(rs[i])))
    case Pointer(e) => Leaves(e)
    case Slice(e) => Leaves(e)
    case Map(k, e) => Leaves(k) + Leaves(e)
    case _ => [t]
  }

  function LeavesOfEach(ts: seq<GoType>): seq<seq<GoType>> {
    seq(|ts|, i requires 0 <= i < |ts| => Leaves(ts[i]))
  }

  lemma SignatureLeaves(t: GoType)
    requires t.Signature?
    ensures Leaves(t) == Flatten(LeavesOfEach(t.params)) + Flatten(LeavesOfEach(t.results))
  {
  }

  /** The shapes the walk accepts where it stops: named, basic, interface and struct types. */
  predicate Walked(u: GoType) {
    u.Named? || u.Basic? || u.Interface? || u.Struct?
  }

  function FirstUnsupported(ls: seq<GoType>): Option<GoType>
    decreases |ls|
  {
    if |ls| == 0 then None
    else if !Walked(ls[0]) then Some(ls[0])
    else FirstUnsupported(ls[1..])
  }

  /** The package path a leaf contributes: a named type's, if it has a package. */
  function PathOf(u: GoType): seq<string> {
    if u.Named? && u.pkg.Some? then [StripVendor(u.pkg.value.path)] else []
  }

  function PathsOf(ls: seq<GoType>): seq<string>
    decreases |ls|
  {
    if |ls| == 0 then [] else PathOf(ls[0]) + PathsOf(ls[1..])
  }

  lemma {:induction false} FirstUnsupportedAppend(a: seq<GoType>, b: seq<GoType>)
    ensures FirstUnsupported(a + b) == if FirstUnsupported(a).Some? then FirstUnsupported(a) else FirstUnsupported(b)
    decreases |a|
  {
    if |a| == 0 {
      assert a + b == b;
    } else {
      assert (a + b)[1..] == a[1..] + b;
      FirstUnsupportedAppend(a[1..], b);
    }
  }

  lemma {:induction false} PathsOfAppend(a: seq<GoType>, b: seq<GoType>)
    ensures PathsOf(a + b) == PathsOf(a) + PathsOf(b)
    decreases |a|
  {
    if |a| == 0 {
      assert a + b == b;
    } else {
      assert (a + b)[1..] == a[1..] + b;
      PathsOfAppend(a[1..], b);
    }
  }

  /**
   * What the walk of `t` yields: the first shape it cannot handle as an
   * error, else the package path of every named leaf, in the order met.
   */
  function PkgPaths(t: GoType): Result<seq<string>, ParseError> {
    WalkOf(Leaves(t))
  }

  function WalkOf(ls: seq<GoType>): Result<seq<string>, ParseError> {
    match FirstUnsupported(ls)
    case Some(u) => Failure(InvalidType(u))
    case None => Success(PathsOf(ls))
  }

  /** Walking two stretches one after the other. */
  lemma WalkAppend(a: seq<GoType>, b: seq<GoType>)
    ensures WalkOf(a + b)
         == if WalkOf(a).Failure? then WalkOf(a)
            else if WalkOf(b).Failure? then WalkOf(b)
            else Success(WalkOf(a).value + WalkOf(b).value)
  {
    FirstUnsupportedAppend(a, b);
    PathsOfAppend(a, b);
  }

  /**
   * Walking component `k` after a successful walk of the components
   * before it: a failure there is the failure of the whole walk ...
   */
  lemma WalkComponentFails(parts: seq<seq<GoType>>, k: nat, acc: seq<string>)
    requires k < |parts| && WalkOf(Flatten(parts[..k])) == Success(acc)
    requires WalkOf(parts[k]).Failure?
    ensures WalkOf(Flatten(parts)) == WalkOf(parts[k])
  {
    var before, here, after := Flatten(parts[..k]), parts[k], Flatten(parts[k + 1..]);
    FlattenSplit(parts, k);
    WalkAppend(before, here);
    WalkAppend(before + here, after);
  }

  /** ... otherwise its paths extend the ones found so far. */
  lemma WalkComponentSucceeds(parts: seq<seq<GoType>>, k: nat, acc: seq<string>)
    requires k < |parts| && WalkOf(Flatten(parts[..k])) == Success(acc)
    requires WalkOf(parts[k]).Success?
    ensures WalkOf(Flatten(parts[..k + 1])) == Success(acc + WalkOf(parts[k]).value)
  {
    assert parts[..k + 1][..k] == parts[..k];
    WalkAppend(Flatten(parts[..k]), parts[k]);
  }

  /** The walk of a shape it does not look inside. */
  lemma LeafWalk(u: GoType)
    requires !Composite(u)
    ensures PkgPaths(u) == if Walked(u) then Success(PathOf(u)) else Failure(InvalidType(u))
  {
    assert Leaves(u) == [u];
    assert [u][1..] == [];
    assert PathsOf([u]) == PathOf(u) + PathsOf([]);
    assert PathOf(u) + [] == PathOf(u);
    assert FirstUnsupported([u]) == if Walked(u) then None else Some(u);
  }

  /**
   * One tuple of a signature -- its parameters or its results -- walked
   * entry by entry, stopping at the first failure.
   */
  method ResolveTuple(ghost p: GoType, ts: seq<GoType>) returns (r: Result<seq<string>, ParseError>)
    requires p.Signature? && (ts == p.params || ts == p.results)
    ensures r == WalkOf(Flatten(LeavesOfEach(ts)))
    decreases p, 0
  {
    ghost var parts := LeavesOfEach(ts);
    var acc: seq<string> := [];
    var i := 0;
    assert parts[..0] == [];
    while i < |ts|
      invariant 0 <= i <= |ts|
      invariant WalkOf(Flatten(parts[..i])) == Success(acc)
    {
      var paths := ResolvePkgPaths(ts[i]);
      assert WalkOf(parts[i]) == paths;
      if paths.Failure? {
        WalkComponentFails(parts, i, acc);
        return Failure(paths.error);
      }
      WalkComponentSucceeds(parts, i, acc);
      acc := acc + paths.value;
      i := i + 1;
    }
    assert parts[..|ts|] == parts;
    return Success(acc);
  }

  method ResolvePkgPaths(p: GoType) returns (r: Result<seq<string>, ParseError>)
    ensures r == PkgPaths(p)
    decreases p, 1
  {
    match p {
      case Signature(ps, rs, _) =>
        SignatureLeaves(p);
        WalkAppend(Flatten(LeavesOfEach(ps)), Flatten(LeavesOfEach(rs)));
        var paramPaths := ResolveTuple(p, ps);
        if paramPaths.Failure? {
          return Failure(paramPaths.error);
        }
        var resultPaths := ResolveTuple(p, rs);
        if resultPaths.Failure? {
          return Failure(resultPaths.error);
        }
        return Success(paramPaths.value + resultPaths.value);
      case Pointer(e) =>
        r := ResolvePkgPaths(e);
      case Map(k, e) =>
        var keyPaths := ResolvePkgPaths(k);
        WalkAppend(Leaves(k), Leaves(e));
        if keyPaths.Failure? {
          return Failure(keyPaths.error);
        }
        var elemPaths := ResolvePkgPaths(e);
        if elemPaths.Failure? {
          return Failure(elemPaths.error);
        }
        return Success(keyPaths.value + elemPaths.value);
      case Slice(e) =>
        r := ResolvePkgPaths(e);
      case Named(pkg, _, _) =>
        LeafWalk(p);
        // builtins such as error have no package
        if pkg.Some? {
          return Success([StripVendor(pkg.value.path)]);
        }
        return Success([]);
      case Basic(_) =>
        LeafWalk(p);
        return Success([]);
      case Interface(_) =>
        LeafWalk(p);
        return Success([]);
      case Struct(_) =>
        LeafWalk(p);
        return Success([]);
      case Other(_) =>
        LeafWalk(p);
        return Failure(InvalidType(p));
    }
  }

  /** Every shape of `t` the walk reaches, `t` included. */
  function Components(t: GoType): set<GoType>
    decreases t
  {
    {t} +
    match t
    case Signature(ps, rs, _) =>
      (set i, u | 0 <= i < |ps| && u in Components(ps[i]) :: u)
      + (set i, u | 0 <= i < |rs| && u in Components(rs[i]) :: u)
    case Pointer(e) => Components(e)
    case Slice(e) => Components(e)
    case Map(k, e) => Components(k) + Components(e)
    case _ => {}
  }

  /** The shapes the walk looks inside. */
  predicate Composite(u: GoType) {
    u.Signature? || u.Pointer? || u.Slice? || u.Map?
  }

  /** The components reached through the entries of a tuple. */
  function TupleComponents(ts: seq<GoType>): set<GoType> {
    set i, u | 0 <= i < |ts| && u in Components(ts[i]) :: u
  }

  lemma {:induction false} LeavesAreComponents(t: GoType)
    ensures forall u :: u in Leaves(t) ==> !Composite(u)
    ensures forall u :: !Composite(u) ==> (u in Leaves(t) <==> u in Components(t))
    decreases t, 1
  {
    match t
    case Signature(ps, rs, _) =>
      SignatureLeaves(t);
      TupleLeavesAreComponents(t, ps);
      TupleLeavesAreComponents(t, rs);
      assert Components(t) == {t} + TupleComponents(ps) + TupleComponents(rs);
    case Pointer(e) => LeavesAreComponents(e);
    case Slice(e) => LeavesAreComponents(e);
    case Map(k, e) =>
      LeavesAreComponents(k);
      LeavesAreComponents(e);
    case Named(_, _, _) =>
    case Basic(_) =>
    case Interface(_) =>
    case Struct(_) =>
    case Other(_) =>
  }

  lemma {:induction false} TupleLeavesAreComponents(t: GoType, ts: seq<GoType>)
    requires t.Signature? && (ts == t.params || ts == t.results)
    ensures forall u :: u in Flatten(LeavesOfEach(ts)) ==> !Composite(u)
    ensures forall u :: !Composite(u) ==> (u in Flatten(LeavesOfEach(ts)) <==> u in TupleComponents(ts))
    decreases t, 0
  {
    var ls := LeavesOfEach(ts);
    FlattenMembers(ls);
    forall i | 0 <= i < |ts|
      ensures forall u :: u in ls[i] ==> !Composite(u)
      ensures forall u :: !Composite(u) ==> (u in ls[i] <==> u in Components(ts[i]))
    {
      LeavesAreComponents(ts[i]);
    }
  }

  lemma {:induction false} FlattenMembers<T>(ss: seq<seq<T>>)
    ensures forall x :: x in Flatten(ss) <==> exists i :: 0 <= i < |ss| && x in ss[i]
    decreases |ss|
  {
    if |ss| > 0 {
      FlattenMembers(ss[..|ss| - 1]);
    }
  }

  lemma {:induction false} FirstUnsupportedNone(ls: seq<GoType>)
    ensures FirstUnsupported(ls).None? <==> forall u :: u in ls ==> Walked(u)
    ensures FirstUnsupported(ls).Some? ==> FirstUnsupported(ls).value in ls && !Walked(FirstUnsupported(ls).value)
    decreases |ls|
  {
    if |ls| > 0 {
      FirstUnsupportedNone(ls[1..]);
      assert forall u :: u in ls <==> u == ls[0] || u in ls[1..];
    }
  }

  lemma {:induction false} PathsOfMembers(ls: seq<GoType>)
    ensures forall x :: x in PathsOf(ls) <==> exists u :: u in ls && u.Named? && u.pkg.Some? && x == StripVendor(u.pkg.value.path)
    decreases |ls|
  {
    if |ls| > 0 {
      PathsOfMembers(ls[1..]);
      assert forall u :: u in ls <==> u == ls[0] || u in ls[1..];
    }
  }

  /**
   * The walk of `t` fails exactly when some part of `t` it reaches is an
   * unsupported shape (array, channel, ...), and the error names such a
   * part; otherwise it yields exactly the vendor-stripped paths of the
   * named parts that have a package.
   */
  lemma PkgPathsCharacterized(t: GoType)
    ensures PkgPaths(t).Failure? <==> exists u :: u in Components(t) && u.Other?
    ensures PkgPaths(t).Failure? ==>
      PkgPaths(t).error.InvalidType? && PkgPaths(t).error.shape in Components(t) && PkgPaths(t).error.shape.Other?
    ensures PkgPaths(t).Success? ==> forall x :: x in PkgPaths(t).value <==>
      exists u :: u in Components(t) && u.Named? && u.pkg.Some? && x == StripVendor(u.pkg.value.path)
  {
    var ls := Leaves(t);
    LeavesAreComponents(t);
    FirstUnsupportedNone(ls);
    PathsOfMembers(ls);
    assert PkgPaths(t) == WalkOf(ls);
    if FirstUnsupported(ls).Some? {
      var u := FirstUnsupported(ls).value;
      assert u in Components(t) && u.Other?;
    }
  }

  // ---------------------------------------------------------------------
  // Order-preserving de-duplication

  /** The elements of `s` without repeats, each where it first occurs. */
  function Dedup(s: seq<string>): seq<string>
    decreases |s|
  {
    if |s| == 0 then []
    else
      var d := Dedup(s[..|s| - 1]);
      if s[|s| - 1] in d then d else d + [s[|s| - 1]]
  }

  predicate Distinct(s: seq<string>) {
    forall i, j :: 0 <= i < j < |s| ==> s[i] != s[j]
  }

  method UniqueStringSlice(s: seq<string>) returns (paths: seq<string>)
    ensures paths == Dedup(s)
  {
    var m: set<string> := {};
    paths := [];
    var i := 0;
    while i < |s|
      invariant 0 <= i <= |s|
      invariant paths == Dedup(s[..i])
      invariant forall x :: x in m <==> x in paths
    {
      var p := s[i];
      assert s[..i + 1][..i] == s[..i];
      if p !in m {
        paths := paths + [p];
        m := m + {p};
      }
      i := i + 1;
    }
    assert s[..|s|] == s;
  }

  /** Nothing is lost or invented: the output holds exactly the input's elements. */
  lemma {:induction false} DedupSameElements(s: seq<string>)
    ensures forall x :: x in Dedup(s) <==> x in s
    decreases |s|
  {
    if |s| > 0 {
      DedupSameElements(s[..|s| - 1]);
      assert s == s[..|s| - 1] + [s[|s| - 1]];
    }
  }

  lemma {:induction false} DedupDistinct(s: seq<string>)
    ensures Distinct(Dedup(s))
    decreases |s|
  {
    if |s| > 0 {
      DedupDistinct(s[..|s| - 1]);
    }
  }

  /** The position of the first occurrence of `x` in `s`. */
  function FirstIndex(s: seq<string>, x: string): (r: nat)
    requires x in s
    ensures r < |s| && s[r] == x && x !in s[..r]
    decreases |s|
  {
    if s[0] == x then 0
    else
      var r := 1 + FirstIndex(s[1..], x);
      assert s[..r] == [s[0]] + s[1..][..r - 1];
      r
  }

  lemma FirstIndexInPrefix(s: seq<string>, k: nat, x: string)
    requires k <= |s| && x in s[..k]
    ensures x in s && FirstIndex(s, x) == FirstIndex(s[..k], x)
  {
    var b := FirstIndex(s[..k], x);
    assert s[..k][..b] == s[..b];
    assert s[b] == x;
  }

  /** Elements come out in the order of their first occurrence in the input. */
  lemma {:induction false} DedupFirstSeenOrder(s: seq<string>)
    ensures forall x :: x in Dedup(s) ==> x in s
    ensures forall i, j :: 0 <= i < j < |Dedup(s)| ==> FirstIndex(s, Dedup(s)[i]) < FirstIndex(s, Dedup(s)[j])
    decreases |s|
  {
    DedupSameElements(s);
    if |s| > 0 {
      var init := s[..|s| - 1];
      var d := Dedup(init);
      DedupFirstSeenOrder(init);
      DedupSameElements(init);
      forall x | x in d ensures FirstIndex(s, x) == FirstIndex(init, x) {
        FirstIndexInPrefix(s, |s| - 1, x);
      }
      var last := s[|s| - 1];
      if last !in d {
        assert last !in init;
        assert s[..|s| - 1] == init;
        assert FirstIndex(s, last) == |s| - 1;
      }
    }
  }

  lemma {:induction false} DedupOfDistinct(s: seq<string>)
    requires Distinct(s)
    ensures Dedup(s) == s
    decreases |s|
  {
    if |s| > 0 {
      var init, last := s[..|s| - 1], s[|s| - 1];
      assert Distinct(init) by {
        assert forall k :: 0 <= k < |init| ==> init[k] == s[k];
      }
      DedupOfDistinct(init);
      assert last !in init by {
        assert forall k :: 0 <= k < |init| ==> init[k] == s[k] && s[k] != last;
      }
      assert s == init + [last];
    }
  }

  lemma DedupIdempotent(s: seq<string>)
    ensures Dedup(Dedup(s)) == Dedup(s)
  {
    DedupDistinct(s);
    DedupOfDistinct(Dedup(s));
  }

  // ---------------------------------------------------------------------
  // Method sets and imports

  /** The walks of every method's type, in method-set order, stopping at the first that fails. */
  function MethodSetPaths(mset: seq<Selection>): Result<seq<string>, ParseError>
    decreases |mset|
  {
    if |mset| == 0 then Success([])
    else
      match MethodSetPaths(mset[..|mset| - 1])
      case Failure(e) => Failure(e)
      case Success(init) =>
        match PkgPaths(mset[|mset| - 1].typ)
        case Failure(e) => Failure(e)
        case Success(last) => Success(init + last)
  }

  lemma {:induction false} MethodSetPathsPrefixFailure(mset: seq<Selection>, k: nat)
    requires k <= |mset| && MethodSetPaths(mset[..k]).Failure?
    ensures MethodSetPaths(mset) == MethodSetPaths(mset[..k])
    decreases |mset| - k
  {
    if k < |mset| {
      assert mset[..k + 1][..k] == mset[..k];
      MethodSetPathsPrefixFailure(mset, k + 1);
    } else {
      assert mset[..k] == mset;
    }
  }

  lemma MethodSetPathsStep(mset: seq<Selection>, i: nat, acc: seq<string>)
    requires i < |mset| && MethodSetPaths(mset[..i]) == Success(acc)
    ensures MethodSetPaths(mset[..i + 1])
         == match PkgPaths(mset[i].typ)
            case Failure(e) => Failure(e)
            case Success(p) => Success(acc + p)
  {
    assert mset[..i + 1][..i] == mset[..i];
  }

  /** The imports kept from the de-duplicated paths: all of them, or, in-package, all but the output package. */
  function ImportsFrom(paths: seq<string>, inPkg: bool, outPkgPath: string): seq<Import>
    decreases |paths|
  {
    if |paths| == 0 then []
    else
      var last := paths[|paths| - 1];
      ImportsFrom(paths[..|paths| - 1], inPkg, outPkgPath)
      + (if !inPkg || (inPkg && last != outPkgPath) then [Import(last)] else [])
  }

  lemma ImportsFromStep(paths: seq<string>, j: nat, inPkg: bool, outPkgPath: string)
    requires j < |paths|
    ensures !inPkg || paths[j] != outPkgPath ==>
      ImportsFrom(paths[..j + 1], inPkg, outPkgPath) == ImportsFrom(paths[..j], inPkg, outPkgPath) + [Import(paths[j])]
    ensures inPkg && paths[j] == outPkgPath ==>
      ImportsFrom(paths[..j + 1], inPkg, outPkgPath) == ImportsFrom(paths[..j], inPkg, outPkgPath)
  {
    assert paths[..j + 1][..j] == paths[..j];
    var init := ImportsFrom(paths[..j], inPkg, outPkgPath);
    assert init + [] == init;
  }

  lemma ImportsFromExtend(lead: seq<Import>, imports: seq<Import>, paths: seq<string>, j: nat, inPkg: bool, outPkgPath: string)
    requires j < |paths| && imports == lead + ImportsFrom(paths[..j], inPkg, outPkgPath)
    ensures !inPkg || paths[j] != outPkgPath ==> imports + [Import(paths[j])] == lead + ImportsFrom(paths[..j + 1], inPkg, outPkgPath)
    ensures inPkg && paths[j] == outPkgPath ==> imports == lead + ImportsFrom(paths[..j + 1], inPkg, outPkgPath)
  {
    ImportsFromStep(paths, j, inPkg, outPkgPath);
  }

  /** What parseImports returns for type `t` with method set `mset`. */
  function ImportsOf(t: GoType, mset: seq<Selection>, outPkgPath: string): Result<seq<Import>, ParseError> {
    match MethodSetPaths(mset)
    case Failure(e) => Failure(e)
    case Success(paths) =>
      var own := TypePackagePath(t);
      var inPkg := own == outPkgPath;
      Success((if inPkg then [] else [Import(own)]) + ImportsFrom(Dedup(paths), inPkg, outPkgPath))
  }

  /** The first loop of parseImports: the walk of every method, in order. */
  method ResolveMethodSetPaths(mset: seq<Selection>) returns (r: Result<seq<string>, ParseError>)
    ensures r == MethodSetPaths(mset)
  {
    var pkgPaths: seq<string> := [];
    var i := 0;
    while i < |mset|
      invariant 0 <= i <= |mset|
      invariant MethodSetPaths(mset[..i]) == Success(pkgPaths)
    {
      var paths := ResolvePkgPaths(mset[i].typ);
      MethodSetPathsStep(mset, i, pkgPaths);
      if paths.Failure? {
        MethodSetPathsPrefixFailure(mset, i + 1);
        return Failure(paths.error);
      }
      pkgPaths := pkgPaths + paths.value;
      i := i + 1;
    }
    assert mset[..|mset|] == mset;
    return Success(pkgPaths);
  }

  method ParseImports(t: GoType, mset: seq<Selection>, outPkgPath: string) returns (r: Result<seq<Import>, ParseError>)
    ensures r == ImportsOf(t, mset, outPkgPath)
  {
    var resolved := ResolveMethodSetPaths(mset);
    if resolved.Failure? {
      return Failure(resolved.error);
    }
    var pkgPaths := resolved.value;

    var imports: seq<Import> := [];
    var inPkg := TypePackagePath(t) == outPkgPath;
    if !inPkg {
      // the import of the type itself
      imports := imports + [Import(TypePackagePath(t))];
    }
    ghost var lead := imports;
    var unique := UniqueStringSlice(pkgPaths);
    var j := 0;
    while j < |unique|
      invariant 0 <= j <= |unique|
      invariant imports == lead + ImportsFrom(unique[..j], inPkg, outPkgPath)
    {
      var path := unique[j];
      ImportsFromExtend(lead, imports, unique, j, inPkg, outPkgPath);
      // no import of the output package itself, which would be circular
      if !inPkg || (inPkg && path != outPkgPath) {
        imports := imports + [Import(path)];
      }
      j := j + 1;
    }
    assert Success(imports) == ImportsOf(t, mset, outPkgPath) by {
      assert unique[..|unique|] == unique;
      assert lead == if inPkg then [] else [Import(TypePackagePath(t))];
    }
    return Success(imports);
  }

  lemma {:induction false} MethodSetPathsFailure(mset: seq<Selection>)
    ensures MethodSetPaths(mset).Failure? <==> exists k :: 0 <= k < |mset| && PkgPaths(mset[k].typ).Failure?
    ensures MethodSetPaths(mset).Failure? ==>
      exists k :: 0 <= k < |mset| && PkgPaths(mset[k].typ) == Failure(MethodSetPaths(mset).error)
        && forall j :: 0 <= j < k ==> PkgPaths(mset[j].typ).Success?
    decreases |mset|
  {
    if |mset| > 0 {
      var init := mset[..|mset| - 1];
      MethodSetPathsFailure(init);
      assert forall k :: 0 <= k < |init| ==> init[k] == mset[k];
    }
  }

  /**
   * The walk fails exactly when some method's walk fails, and then with the
   * error of the first such method; no imports are returned.
   */
  lemma ImportsFailOnFirstBadMethod(t: GoType, mset: seq<Selection>, outPkgPath: string)
    ensures ImportsOf(t, mset, outPkgPath).Failure? <==> exists k :: 0 <= k < |mset| && PkgPaths(mset[k].typ).Failure?
    ensures ImportsOf(t, mset, outPkgPath).Failure? ==>
      exists k :: 0 <= k < |mset| && PkgPaths(mset[k].typ) == Failure(ImportsOf(t, mset, outPkgPath).error)
        && forall j :: 0 <= j < k ==> PkgPaths(mset[j].typ).Success?
  {
    MethodSetPathsFailure(mset);
  }

  lemma {:induction false} ImportsFromMembers(paths: seq<string>, inPkg: bool, outPkgPath: string)
    ensures forall p :: Import(p) in ImportsFrom(paths, inPkg, outPkgPath) <==> p in paths && (!inPkg || p != outPkgPath)
    ensures Distinct(paths) ==> forall i, j :: 0 <= i < j < |ImportsFrom(paths, inPkg, outPkgPath)| ==>
      ImportsFrom(paths, inPkg, outPkgPath)[i] != ImportsFrom(paths, inPkg, outPkgPath)[j]
    decreases |paths|
  {
    if |paths| > 0 {
      var init := paths[..|paths| - 1];
      ImportsFromMembers(init, inPkg, outPkgPath);
      assert paths == init + [paths[|paths| - 1]];
      if Distinct(paths) {
        assert Distinct(init);
      }
    }
  }

  lemma {:induction false} ImportsFromAll(paths: seq<string>, outPkgPath: string)
    ensures ImportsFrom(paths, false, outPkgPath) == seq(|paths|, i requires 0 <= i < |paths| => Import(paths[i]))
    decreases |paths|
  {
    if |paths| > 0 {
      ImportsFromAll(paths[..|paths| - 1], outPkgPath);
    }
  }

  /**
   * For a type in the output package: every import is distinct, none is
   * the output package, and exactly the walked paths other than the
   * output package are imported.
   */
  lemma InPackageImports(t: GoType, mset: seq<Selection>, outPkgPath: string)
    requires TypePackagePath(t) == outPkgPath
    requires ImportsOf(t, mset, outPkgPath).Success?
    ensures var imps := ImportsOf(t, mset, outPkgPath).value;
      && (forall k :: 0 <= k < |imps| ==> imps[k].path != outPkgPath)
      && (forall i, j :: 0 <= i < j < |imps| ==> imps[i] != imps[j])
      && (forall p :: Import(p) in imps <==> p in MethodSetPaths(mset).value && p != outPkgPath)
  {
    var paths := MethodSetPaths(mset).value;
    DedupSameElements(paths);
    DedupDistinct(paths);
    ImportsFromMembers(Dedup(paths), true, outPkgPath);
    var imps := ImportsOf(t, mset, outPkgPath).value;
    assert imps == ImportsFrom(Dedup(paths), true, outPkgPath);
    forall k | 0 <= k < |imps| ensures imps[k].path != outPkgPath {
      assert Import(imps[k].path) in imps;
    }
  }

  /**
   * For a type outside the output package: the first import is the type's
   * own package, and the rest are the walked paths without repeats, in
   * first-seen order -- the output package and the type's own package
   * included when a method mentions them.
   */
  lemma OutOfPackageImports(t: GoType, mset: seq<Selection>, outPkgPath: string)
    requires TypePackagePath(t) != outPkgPath
    requires ImportsOf(t, mset, outPkgPath).Success?
    ensures var imps := ImportsOf(t, mset, outPkgPath).value;
            var unique := Dedup(MethodSetPaths(mset).value);
      && |imps| == 1 + |unique|
      && imps[0] == Import(TypePackagePath(t))
      && (forall k :: 0 <= k < |unique| ==> imps[k + 1] == Import(unique[k]))
  {
    var paths := MethodSetPaths(mset).value;
    var unique := Dedup(paths);
    var rest := ImportsFrom(unique, false, outPkgPath);
    ImportsFromAll(unique, outPkgPath);
    assert ImportsOf(t, mset, outPkgPath) == Success([Import(TypePackagePath(t))] + rest);
    var imps := ImportsOf(t, mset, outPkgPath).value;
    forall k | 0 <= k < |unique| ensures imps[k + 1] == Import(unique[k]) {
      assert imps[k + 1] == rest[k];
    }
  }

  /** The exported entries of a method set, in their original order. */
  function ExportedOnly(mset: seq<Selection>): seq<Selection>
    decreases |mset|
  {
    if |mset| == 0 then []
    else
      var last := mset[|mset| - 1];
      ExportedOnly(mset[..|mset| - 1]) + (if IsExported(last.name) then [last] else [])
  }

  method MethodSet(intuitive: seq<Selection>) returns (exported: seq<Selection>)
    ensures exported == ExportedOnly(intuitive)
  {
    exported := [];
    var i := 0;
    while i < |intuitive|
      invariant 0 <= i <= |intuitive|
      invariant exported == ExportedOnly(intuitive[..i])
    {
      var m := intuitive[i];
      assert intuitive[..i + 1][..i] == intuitive[..i];
      if IsExported(m.name) {
        exported := exported + [m];
      }
      i := i + 1;
    }
    assert intuitive[..|intuitive|] == intuitive;
  }

  /** `a` is `b` with some entries left out. */
  predicate IsSubsequence<T(==)>(a: seq<T>, b: seq<T>)
    decreases |b|
  {
    if |a| == 0 then true
    else if |b| == 0 then false
    else if a[|a| - 1] == b[|b| - 1] then IsSubsequence(a[..|a| - 1], b[..|b| - 1])
    else IsSubsequence(a, b[..|b| - 1])
  }

  lemma {:induction false} SubsequenceOfLonger<T>(a: seq<T>, b: seq<T>, x: T)
    requires IsSubsequence(a, b)
    ensures IsSubsequence(a, b + [x])
    decreases |b|, 1
  {
    var b' := b + [x];
    assert b'[..|b'| - 1] == b;
    if |a| > 0 && a[|a| - 1] == x {
      SubsequenceDropLast(a, b);
    }
  }

  lemma {:induction false} SubsequenceDropLast<T>(a: seq<T>, b: seq<T>)
    requires |a| > 0 && IsSubsequence(a, b)
    ensures IsSubsequence(a[..|a| - 1], b)
    decreases |b|, 0
  {
    var init, y := b[..|b| - 1], b[|b| - 1];
    assert init + [y] == b;
    if a[|a| - 1] != y {
      SubsequenceDropLast(a, init);
    }
    SubsequenceOfLonger(a[..|a| - 1], init, y);
  }

  /** The filter keeps exactly the exported methods, in the order the method set lists them. */
  lemma {:induction false} ExportedOnlySelects(mset: seq<Selection>)
    ensures forall m :: m in ExportedOnly(mset) <==> m in mset && IsExported(m.name)
    ensures IsSubsequence(ExportedOnly(mset), mset)
    decreases |mset|
  {
    if |mset| > 0 {
      var init := mset[..|mset| - 1];
      var last := mset[|mset| - 1];
      ExportedOnlySelects(init);
      assert mset == init + [last];
      var e := ExportedOnly(init);
      if IsExported(last.name) {
        assert (e + [last])[..|e|] == e;
      } else {
        SubsequenceOfLonger(e, init, last);
        assert ExportedOnly(mset) == e;
        assert IsSubsequence(e, init + [last]);
      }
    }
  }

  // ---------------------------------------------------------------------
  // Method metadata

  /** The template's view of one type: rendered with and without qualifiers, and whether it is an interface. */
  function TypeInfoOf(t: GoType, outPkgPath: string): (r: TypeInfo)
    ensures NamedOnlyIn(t, outPkgPath) ==> r.name == r.nameWithoutQualifier
  {
    assert NamedOnlyIn(t, outPkgPath) ==> TypeString(t, RelativeTo(outPkgPath)) == TypeString(t, Unqualified) by {
      if NamedOnlyIn(t, outPkgPath) {
        QualifierDroppedInOutputPackage(t, outPkgPath);
      }
    }
    TypeInfo(TypeString(t, RelativeTo(outPkgPath)), TypeString(t, Unqualified), IsInterface(t))
  }

  function TupleInfo(tuple: seq<GoType>, outPkgPath: string): seq<TypeInfo> {
    seq(|tuple|, i requires 0 <= i < |tuple| => TypeInfoOf(tuple[i], outPkgPath))
  }

  /** The TypeInfo of each parameter or result, in order. */
  method ParseTuple(tuple: seq<GoType>, outPkgPath: string) returns (vars: seq<TypeInfo>)
    ensures vars == TupleInfo(tuple, outPkgPath)
  {
    vars := [];
    var i := 0;
    while i < |tuple|
      invariant 0 <= i <= |tuple|
      invariant vars == TupleInfo(tuple[..i], outPkgPath)
    {
      vars := vars + [TypeInfoOf(tuple[i], outPkgPath)];
      i := i + 1;
      assert tuple[..i][..i - 1] == tuple[..i - 1];
    }
    assert tuple[..i] == tuple;
  }

  /** The Method record built for a method-set entry whose type is a signature. */
  function MethodOf(m: Selection, outPkgPath: string): Method
    requires m.typ.Signature?
  {
    Method(m.name, TupleInfo(m.typ.params, outPkgPath), TupleInfo(m.typ.results, outPkgPath), m.typ.variadic)
  }

  predicate AllSignatures(mset: seq<Selection>) {
    forall k :: 0 <= k < |mset| ==> mset[k].typ.Signature?
  }

  /** The first entry whose type is not a signature. */
  function FirstNonSignature(mset: seq<Selection>): (r: Option<Selection>)
    ensures r.None? <==> AllSignatures(mset)
    decreases |mset|
  {
    if |mset| == 0 then None
    else if !mset[0].typ.Signature? then Some(mset[0])
    else
      var r := FirstNonSignature(mset[1..]);
      assert AllSignatures(mset[1..]) ==> AllSignatures(mset) by {
        if AllSignatures(mset[1..]) {
          forall k | 0 <= k < |mset| ensures mset[k].typ.Signature? {
            if k > 0 { assert mset[k] == mset[1..][k - 1]; }
          }
        }
      }
      r
  }

  lemma {:induction false} FirstNonSignatureAt(mset: seq<Selection>, i: nat)
    requires i < |mset| && AllSignatures(mset[..i]) && !mset[i].typ.Signature?
    ensures FirstNonSignature(mset) == Some(mset[i])
    decreases i
  {
    if i > 0 {
      assert mset[..i][0] == mset[0];
      assert mset[1..][..i - 1] == mset[1..i];
      assert forall k :: 0 <= k < i - 1 ==> mset[1..i][k] == mset[..i][k + 1];
      FirstNonSignatureAt(mset[1..], i - 1);
    }
  }

  function MethodsOf(mset: seq<Selection>, outPkgPath: string): seq<Method>
    requires AllSignatures(mset)
  {
    seq(|mset|, i requires 0 <= i < |mset| => MethodOf(mset[i], outPkgPath))
  }

  lemma MethodsOfStep(mset: seq<Selection>, i: nat, outPkgPath: string)
    requires i < |mset| && AllSignatures(mset[..i]) && mset[i].typ.Signature?
    ensures AllSignatures(mset[..i + 1])
    ensures MethodsOf(mset[..i + 1], outPkgPath) == MethodsOf(mset[..i], outPkgPath) + [MethodOf(mset[i], outPkgPath)]
  {
    assert forall k :: 0 <= k < i ==> mset[..i + 1][k] == mset[..i][k];
  }

  /** What parseType produces for type `t` whose full method set is `intuitive`. */
  function TypeMetadataOf(t: GoType, intuitive: seq<Selection>, outPkgPath: string): Result<TypeMetadata, ParseError>
    requires t.Named? ==> t.pkg.Some?
  {
    var mset := ExportedOnly(intuitive);
    if |mset| == 0 then Failure(EmptyMethodSet(t))
    else
      match ImportsOf(t, mset, outPkgPath)
      case Failure(e) => Failure(e)
      case Success(imports) =>
        match FirstNonSignature(mset)
        case Some(m) => Failure(NotASignature(m.name))
        case None =>
          if !t.Named? then Failure(NotANamedType)
          else
            Success(TypeMetadata(
              t.pkg.value.name,
              StripVendor(t.pkg.value.path),
              TypeInfoOf(t, outPkgPath),
              imports,
              MethodsOf(mset, outPkgPath)))
  }

  method ParseType(t: GoType, intuitive: seq<Selection>, outPkgPath: string) returns (r: Result<TypeMetadata, ParseError>)
    requires t.Named? ==> t.pkg.Some?
    ensures r == TypeMetadataOf(t, intuitive, outPkgPath)
  {
    var mset := MethodSet(intuitive);
    if |mset| == 0 {
      return Failure(EmptyMethodSet(t));
    }

    var imports := ParseImports(t, mset, outPkgPath);
    if imports.Failure? {
      return Failure(imports.error);
    }

    var methods: seq<Method> := [];
    var i := 0;
    while i < |mset|
      invariant 0 <= i <= |mset|
      invariant AllSignatures(mset[..i])
      invariant methods == MethodsOf(mset[..i], outPkgPath)
    {
      var m := mset[i];
      if !m.typ.Signature? {
        FirstNonSignatureAt(mset, i);
        return Failure(NotASignature(m.name));
      }
      var params := ParseTuple(m.typ.params, outPkgPath);
      var results := ParseTuple(m.typ.results, outPkgPath);
      methods := methods + [Method(m.name, params, results, m.typ.variadic)];
      MethodsOfStep(mset, i, outPkgPath);
      i := i + 1;
    }
    assert mset[..|mset|] == mset;

    if !t.Named? {
      return Failure(NotANamedType);
    }
    return Success(TypeMetadata(
      t.pkg.value.name,
      StripVendor(t.pkg.value.path),
      TypeInfoOf(t, outPkgPath),
      imports.value,
      methods));
  }

  /**
   * parseType succeeds exactly when the type has an exported method, the
   * import walk of its methods succeeds, every exported method is a
   * signature and the type is named; the checks run in that order. On
   * success there is one Method per exported method, in method-set order,
   * with its name and variadic flag copied and one TypeInfo per parameter
   * and result; the package path is the type's own, and the imports are
   * parseImports' result.
   */
  lemma ParseTypeOutcome(t: GoType, intuitive: seq<Selection>, outPkgPath: string)
    requires t.Named? ==> t.pkg.Some?
    ensures var r := TypeMetadataOf(t, intuitive, outPkgPath);
            var mset := ExportedOnly(intuitive);
      && (r.Success? <==>
            |mset| > 0 && ImportsOf(t, mset, outPkgPath).Success? && AllSignatures(mset) && t.Named?)
      && (|mset| == 0 ==> r == Failure(EmptyMethodSet(t)))
      && (|mset| > 0 && ImportsOf(t, mset, outPkgPath).Failure? ==> r == Failure(ImportsOf(t, mset, outPkgPath).error))
      && (|mset| > 0 && ImportsOf(t, mset, outPkgPath).Success? && !AllSignatures(mset) ==> r.Failure? && r.error.NotASignature?)
  {
  }

  /** The methods of a successful parse, entry by entry. */
  lemma ParseTypeMethods(t: GoType, intuitive: seq<Selection>, outPkgPath: string)
    requires t.Named? ==> t.pkg.Some?
    requires TypeMetadataOf(t, intuitive, outPkgPath).Success?
    ensures var md := TypeMetadataOf(t, intuitive, outPkgPath).value;
            var mset := ExportedOnly(intuitive);
      && |md.methods| == |mset|
      && md.packagePath == TypePackagePath(t)
      && md.imports == ImportsOf(t, mset, outPkgPath).value
      && (forall k :: 0 <= k < |mset| ==>
            && md.methods[k].name == mset[k].name
            && IsExported(md.methods[k].name)
            && md.methods[k].variadic == mset[k].typ.variadic
            && |md.methods[k].params| == |mset[k].typ.params|
            && |md.methods[k].results| == |mset[k].typ.results|)
  {
    var mset := ExportedOnly(intuitive);
    ExportedOnlySelects(intuitive);
    forall k | 0 <= k < |mset| ensures IsExported(mset[k].name) {
      assert mset[k] in mset;
    }
  }

  /**
   * For a type of the output package a successful parse imports no
   * package twice and never the output package itself.
   */
  lemma ParseTypeInPackage(t: GoType, intuitive: seq<Selection>, outPkgPath: string)
    requires t.Named? && t.pkg.Some?
    requires TypePackagePath(t) == outPkgPath
    requires TypeMetadataOf(t, intuitive, outPkgPath).Success?
    ensures var imps := TypeMetadataOf(t, intuitive, outPkgPath).value.imports;
      && (forall k :: 0 <= k < |imps| ==> imps[k].path != outPkgPath)
      && (forall i, j :: 0 <= i < j < |imps| ==> imps[i] != imps[j])
  {
    InPackageImports(t, ExportedOnly(intuitive), outPkgPath);
  }

  /**
   * A method parsed from a signature the type checker accepts can be
   * rendered: a variadic last parameter is a slice, so its rendered type,
   * qualified or not, starts with "[]" -- the prefix ParamsSignature drops.
   */
  lemma ParsedMethodRenderable(m: Selection, outPkgPath: string)
    requires WellFormedSignature(m.typ)
    ensures var pm := MethodOf(m, outPkgPath);
      && VariadicRenderable(pm)
      && (pm.variadic ==>
            HasPrefix(pm.params[|pm.params| - 1].name, "[]")
            && HasPrefix(pm.params[|pm.params| - 1].nameWithoutQualifier, "[]"))
  {
    var ps := m.typ.params;
    if m.typ.variadic {
      var last := ps[|ps| - 1];
      SliceRendersWithBrackets(last.elem, RelativeTo(outPkgPath));
      SliceRendersWithBrackets(last.elem, Unqualified);
    }
  }
}
