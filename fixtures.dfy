/**
 * The generator's own test types (internal/circuitgentest), pushed
 * through the model: which methods get a circuit, and the text fragments
 * the wrapper of each is built from. Package paths are left as
 * parameters; all that matters of them is that they differ and are not
 * vendored.
 */
module Fixtures {
  import opened Wrappers
  import opened Text
  import opened GoTypes
  import opened TemplateModels
  import opened Parsing

  function Ctx(pCtx: string): GoType {
    Named(Some(Package("context", pCtx)), "Context", true)
  }

  const Err: GoType := Named(None, "error", true)

  // ---------------------------------------------------------------------
  // Aggregator (a struct with pointer methods), wrapped from another package

  function IncSum(pCtx: string): Selection {
    Selection("IncSum", Signature([Ctx(pCtx), Basic("int")], [Err], false))
  }

  const Sum: Selection := Selection("Sum", Signature([], [Basic("int")], false))

  function PrivateIncSum(pCtx: string): Selection {
    Selection("privateIncSum", Signature([Ctx(pCtx), Basic("int")], [Err], false))
  }

  /** The exported filter drops privateIncSum and keeps the order of the others. */
  lemma AggregatorMethodSet(pCtx: string)
    ensures ExportedOnly([IncSum(pCtx), Sum, PrivateIncSum(pCtx)]) == [IncSum(pCtx), Sum]
  {
    var a, b, c := IncSum(pCtx), Sum, PrivateIncSum(pCtx);
    assert [a][..0] == [];
    assert ExportedOnly([a]) == [a];
    assert [a, b][..1] == [a];
    assert ExportedOnly([a, b]) == [a, b];
    assert [a, b, c][..2] == [a, b];
    assert !IsExported(c.name);
  }

  /** The rendered context parameter, seen from another package. */
  lemma ContextInfo(pCtx: string, pOut: string)
    requires pCtx != pOut
    ensures TypeInfoOf(Ctx(pCtx), pOut) == TypeInfo("context.Context", "Context", true)
  {
    assert "context" + "." + "Context" == "context.Context";
  }

  // ---------------------------------------------------------------------
  // A struct literal that mentions a type of another package

  /** struct{C *foo.Client}, where Client is declared in package foo. */
  function ClientStruct(pFoo: string): GoType {
    Struct([Verbatim("struct{C *"), Ref(Package("foo", pFoo), "Client"), Verbatim("}")])
  }

  lemma ClientStructPieces(pFoo: string, q: Qualifier)
    ensures TypeString(ClientStruct(pFoo), q) == "struct{C *" + QualifiedName(q, Package("foo", pFoo), "Client") + "}"
  {
    var name := QualifiedName(q, Package("foo", pFoo), "Client");
    var ps := ClientStruct(pFoo).pieces;
    var texts := seq(|ps|, i requires 0 <= i < |ps| => PieceText(ps[i], q));
    assert texts == ["struct{C *", name, "}"];
    assert texts[..2][..1] == texts[..1] && texts[..1][..0] == [];
    assert Concat(texts[..1]) == "struct{C *";
    assert Concat(texts[..2]) == "struct{C *" + name;
  }

  lemma ClientNames(pFoo: string, pOut: string)
    requires pFoo != pOut
    ensures QualifiedName(RelativeTo(pOut), Package("foo", pFoo), "Client") == "foo.Client"
    ensures QualifiedName(Unqualified, Package("foo", pFoo), "Client") == "Client"
  {
    assert "foo" + "." + "Client" == "foo.Client";
  }

  /** Inside a literal, a type of another package keeps its qualifier in Name only. */
  lemma ClientStructInfo(pFoo: string, pOut: string)
    requires pFoo != pOut
    ensures TypeInfoOf(ClientStruct(pFoo), pOut) == TypeInfo("struct{C *foo.Client}", "struct{C *Client}", false)
  {
    ClientStructPieces(pFoo, RelativeTo(pOut));
    ClientStructPieces(pFoo, Unqualified);
    ClientNames(pFoo, pOut);
    assert "struct{C *" + "foo.Client" + "}" == "struct{C *foo.Client}";
    assert "struct{C *" + "Client" + "}" == "struct{C *Client}";
  }

  /** The Method record of IncSum, wrapped from another package. */
  const IncSumRecord: Method := Method(
    "IncSum",
    [TypeInfo("context.Context", "Context", true), TypeInfo("int", "int", false)],
    [TypeInfo("error", "error", true)],
    false)

  lemma IncSumParsed(pCtx: string, pOut: string)
    requires pCtx != pOut
    ensures MethodOf(IncSum(pCtx), pOut) == IncSumRecord
  {
    ContextInfo(pCtx, pOut);
    var ps, rs := [Ctx(pCtx), Basic("int")], [Err];
    assert TupleInfo(ps, pOut) == IncSumRecord.params by {
      assert TupleInfo(ps, pOut)[0] == IncSumRecord.params[0];
      assert TupleInfo(ps, pOut)[1] == IncSumRecord.params[1];
    }
    assert TupleInfo(rs, pOut) == IncSumRecord.results by {
      assert TupleInfo(rs, pOut)[0] == IncSumRecord.results[0];
    }
  }

  /**
   * IncSum takes a context and returns an error, so it is wrapped; its
   * wrapper declares "ctx context.Context, p1 int" and calls through with
   * "ctx, p1". Sum takes no context and is not wrapped.
   */
  lemma IncSumWrapped(pOut: string)
    ensures IsWrappingSupported(IncSumRecord)
    ensures !IsWrappingSupported(MethodOf(Sum, pOut))
  {
    assert HasSuffix("context.Context", "Context") by {
      assert "context.Context"[|"context.Context"| - |"Context"|..] == "Context";
    }
  }

  lemma IncSumContextDecl()
    ensures ParamDecl(IncSumRecord, ["ctx"], 0) == "ctx context.Context"
  {
    assert "ctx" + " " + "context.Context" == "ctx context.Context";
  }

  lemma IncSumIntDecl()
    ensures ParamDecl(IncSumRecord, ["ctx"], 1) == "p1 int"
  {
    assert NatToString(1) == "1";
    assert "p" + "1" + " " + "int" == "p1 int";
  }

  lemma IncSumDecls()
    ensures ParamDecls(IncSumRecord, ["ctx"]) == ["ctx context.Context", "p1 int"]
  {
    IncSumContextDecl();
    IncSumIntDecl();
  }

  lemma IncSumParams()
    ensures ParamsSignatureOf(IncSumRecord, ["ctx"]) == "ctx context.Context, p1 int"
  {
    IncSumDecls();
    var decls := ["ctx context.Context", "p1 int"];
    JoinStep(", ", decls, 1);
    assert decls[..1] == ["ctx context.Context"];
    assert decls[..2] == decls;
    assert decls[0] + ", " + decls[1] == "ctx context.Context, p1 int";
  }

  lemma IncSumCall()
    ensures Join(", ", CallArgs(IncSumRecord)) == "ctx, p1"
  {
    var m := IncSumRecord;
    assert NatToString(1) == "1";
    var args := ["ctx", "p1"];
    assert CallArg(m, 1) == "p" + "1" == args[1];
    assert CallArgs(m) == args;
    JoinStep(", ", args, 1);
    assert args[..1] == ["ctx"];
    assert args[..2] == args;
  }

  /** A single (error) result: nothing to declare, and the call binds only err. */
  lemma IncSumResults()
    ensures CircuitAssignmentsOf(IncSumRecord) == "err"
    ensures ClosureDeclarationsOf(IncSumRecord) == ""
  {
    assert ResultVars(IncSumRecord) == [];
    assert ResultDecls(IncSumRecord) == [];
  }

  function Aggregator(pTest: string): GoType {
    Named(Some(Package("circuitgentest", pTest)), "Aggregator", false)
  }

  lemma IncSumLeaves(pCtx: string)
    ensures Leaves(IncSum(pCtx).typ) == [Ctx(pCtx), Basic("int"), Err]
  {
    var sig := IncSum(pCtx).typ;
    var c, i := Ctx(pCtx), Basic("int");
    assert LeavesOfEach([c, i]) == [[c], [i]];
    assert [[c], [i]][..1] == [[c]];
    assert [[c]][..0] == [];
    assert [[Err]][..0] == [];
    assert Flatten([[c]]) == [] + [c] == [c];
    assert Flatten([[c], [i]]) == [c] + [i] == [c, i];
    assert LeavesOfEach([Err]) == [[Err]];
    assert Flatten([[Err]]) == [] + [Err] == [Err];
    SignatureLeaves(sig);
    assert Leaves(sig) == [c, i] + [Err] == [c, i, Err];
  }

  lemma IncSumPaths(pCtx: string)
    requires !Contains(pCtx, Vendor)
    ensures PkgPaths(IncSum(pCtx).typ) == Success([pCtx])
  {
    var c, i := Ctx(pCtx), Basic("int");
    IncSumLeaves(pCtx);
    assert [c, i, Err][1..] == [i, Err];
    assert [i, Err][1..] == [Err];
    assert [Err][1..] == [];
    assert FirstUnsupported([Err]) == None;
    assert FirstUnsupported([i, Err]) == None;
    assert FirstUnsupported([c, i, Err]) == None;
    assert PathsOf([Err]) == [] + [] == [];
    assert PathsOf([i, Err]) == [] + [] == [];
    assert StripVendor(pCtx) == pCtx;
    assert PathsOf([c, i, Err]) == [pCtx] + [] == [pCtx];
  }

  lemma SumPaths()
    ensures PkgPaths(Sum.typ) == Success([])
  {
    var i := Basic("int");
    assert LeavesOfEach([i]) == [[i]];
    assert Flatten([[i]]) == [i];
    SignatureLeaves(Sum.typ);
    assert Leaves(Sum.typ) == [i];
    LeafWalk(i);
  }

  lemma AggregatorPaths(pCtx: string)
    requires !Contains(pCtx, Vendor)
    ensures MethodSetPaths([IncSum(pCtx), Sum]) == Success([pCtx])
  {
    IncSumPaths(pCtx);
    SumPaths();
    var a, b := IncSum(pCtx), Sum;
    assert [a, b][..1] == [a];
    assert [a][..0] == [];
    assert MethodSetPaths([a]) == Success([] + [pCtx]);
    assert [] + [pCtx] == [pCtx];
    assert MethodSetPaths([a, b]) == Success([pCtx] + []);
    assert [pCtx] + [] == [pCtx];
  }

  /**
   * The imports of Aggregator: generated inside its own package only
   * context is imported; generated elsewhere, Aggregator's own package
   * comes first, then context.
   */
  lemma AggregatorImports(pCtx: string, pTest: string, pOut: string)
    requires !Contains(pCtx, Vendor) && !Contains(pTest, Vendor)
    requires pCtx != pTest && pOut != pTest
    ensures ImportsOf(Aggregator(pTest), [IncSum(pCtx), Sum], pTest) == Success([Import(pCtx)])
    ensures ImportsOf(Aggregator(pTest), [IncSum(pCtx), Sum], pOut) == Success([Import(pTest), Import(pCtx)])
  {
    AggregatorPaths(pCtx);
    assert [pCtx][..0] == [];
    assert Dedup([pCtx]) == [pCtx];
    assert ImportsFrom([pCtx], true, pTest) == [] + [Import(pCtx)] == [Import(pCtx)];
    assert ImportsFrom([pCtx], false, pOut) == [] + [Import(pCtx)] == [Import(pCtx)];
    assert StripVendor(pTest) == pTest;
    assert TypePackagePath(Aggregator(pTest)) == pTest;
    assert [] + [Import(pCtx)] == [Import(pCtx)];
    assert [Import(pTest)] + [Import(pCtx)] == [Import(pTest), Import(pCtx)];
  }

  // ---------------------------------------------------------------------
  // Publisher (an interface), wrapped inside its own package

  function Local(pTest: string, name: string): GoType {
    Named(Some(Package("circuitgentest", pTest)), name, false)
  }

  /** rep.PublishOption; its underlying kind does not matter here. */
  function PublishOption(pRep: string): GoType {
    Named(Some(Package("rep", pRep)), "PublishOption", false)
  }

  function PublishParams(pCtx: string, pRep: string, pTest: string): seq<GoType> {
    [Ctx(pCtx),
     Map(Local(pTest, "Seed"), Slice(Slice(Local(pTest, "Grant")))),
     Local(pTest, "TopicsList"),
     Slice(PublishOption(pRep))]
  }

  /** Publish(context.Context, map[Seed][][]Grant, TopicsList, ...rep.PublishOption) error */
  function Publish(pCtx: string, pRep: string, pTest: string): Selection {
    Selection("Publish", Signature(PublishParams(pCtx, pRep, pTest), [Err], true))
  }

  const Close: Selection := Selection("Close", Signature([], [Err], false))

  const PublishRecord: Method := Method(
    "Publish",
    [TypeInfo("context.Context", "Context", true),
     TypeInfo("map[Seed][][]Grant", "map[Seed][][]Grant", false),
     TypeInfo("TopicsList", "TopicsList", false),
     TypeInfo("[]rep.PublishOption", "[]PublishOption", false)],
    [TypeInfo("error", "error", true)],
    true)

  lemma GrantMapText(pTest: string)
    ensures TypeString(Map(Local(pTest, "Seed"), Slice(Slice(Local(pTest, "Grant")))), RelativeTo(pTest)) == "map[Seed][][]Grant"
    ensures TypeString(Map(Local(pTest, "Seed"), Slice(Slice(Local(pTest, "Grant")))), Unqualified) == "map[Seed][][]Grant"
  {
    var seed, grant := Local(pTest, "Seed"), Local(pTest, "Grant");
    assert TypeString(seed, RelativeTo(pTest)) == "Seed" == TypeString(seed, Unqualified);
    assert TypeString(grant, RelativeTo(pTest)) == "Grant" == TypeString(grant, Unqualified);
    assert TypeString(Slice(grant), RelativeTo(pTest)) == "[]Grant" == TypeString(Slice(grant), Unqualified);
    assert TypeString(Slice(Slice(grant)), RelativeTo(pTest)) == "[][]Grant" == TypeString(Slice(Slice(grant)), Unqualified);
    assert "map[" + "Seed" + "]" + "[][]Grant" == "map[Seed][][]Grant";
  }

  lemma PublishOptionQualified(pRep: string, pTest: string)
    requires pRep != pTest
    ensures TypeString(PublishOption(pRep), RelativeTo(pTest)) == "rep.PublishOption"
  {
    assert "rep" + "." + "PublishOption" == "rep.PublishOption";
  }

  lemma PublishOptionText(pRep: string, pTest: string)
    requires pRep != pTest
    ensures TypeString(Slice(PublishOption(pRep)), RelativeTo(pTest)) == "[]rep.PublishOption"
    ensures TypeString(Slice(PublishOption(pRep)), Unqualified) == "[]PublishOption"
  {
    PublishOptionQualified(pRep, pTest);
    assert "[]" + "rep.PublishOption" == "[]rep.PublishOption";
  }

  /** Types of the output package render without a qualifier, others with their package name. */
  lemma PublishParamInfos(pCtx: string, pRep: string, pTest: string)
    requires pCtx != pTest && pRep != pTest
    ensures TupleInfo(PublishParams(pCtx, pRep, pTest), pTest) == PublishRecord.params
  {
    var ps := PublishParams(pCtx, pRep, pTest);
    var infos := TupleInfo(ps, pTest);
    ContextInfo(pCtx, pTest);
    GrantMapText(pTest);
    PublishOptionText(pRep, pTest);
    assert infos[0] == PublishRecord.params[0];
    assert infos[1] == PublishRecord.params[1];
    assert infos[2] == PublishRecord.params[2];
    assert infos[3] == PublishRecord.params[3];
  }

  lemma PublishParsed(pCtx: string, pRep: string, pTest: string)
    requires pCtx != pTest && pRep != pTest
    ensures MethodOf(Publish(pCtx, pRep, pTest), pTest) == PublishRecord
  {
    PublishParamInfos(pCtx, pRep, pTest);
    assert TupleInfo([Err], pTest) == PublishRecord.results by {
      assert TupleInfo([Err], pTest)[0] == PublishRecord.results[0];
    }
  }

  /** Publish is wrapped; Close, which takes no context, is not. */
  lemma PublisherWrapped(pOut: string)
    ensures IsWrappingSupported(PublishRecord)
    ensures !IsWrappingSupported(MethodOf(Close, pOut))
  {
    assert HasSuffix("context.Context", "Context") by {
      assert "context.Context"[|"context.Context"| - |"Context"|..] == "Context";
    }
  }

  /** The variadic slot is declared spread: "[]" becomes "...". */
  lemma PublishVariadicDecl()
    ensures ParamDecl(PublishRecord, ["ctx"], 3) == "p3" + " ..." + "rep.PublishOption"
  {
    var elem := "rep.PublishOption";
    assert NatToString(3) == "3";
    assert "p" + "3" == "p3";
    assert PublishRecord.params[3].name == "[]" + elem;
    assert ("[]" + elem)[2..] == elem;
  }

  /** The call passes ctx, then the positional names, spreading the variadic slot. */
  lemma PublishCallArgs()
    ensures CallArgs(PublishRecord) == ["ctx", "p1", "p2", "p3..."]
  {
    var m := PublishRecord;
    assert NatToString(1) == "1" && NatToString(2) == "2" && NatToString(3) == "3";
    assert CallArg(m, 1) == "p" + "1" == "p1";
    assert CallArg(m, 2) == "p" + "2" == "p2";
    assert CallArg(m, 3) == "p" + "3" + "..." == "p3...";
  }
}
