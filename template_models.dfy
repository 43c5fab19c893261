/**
 * The records handed to the code templates (template_models.go) and the
 * text fragments the templates ask of each method: the parameter list,
 * the arguments of the wrapped call, the result signature, and the
 * result-variable declarations, assignments and returns.
 *
 * Each fragment builder is a method that builds its string with a loop,
 * as the generator does, and is proved equal to a declarative
 * description (a join or concatenation of per-slot pieces).
 */
module TemplateModels {
  import opened Text

  /** A rendered type: with the qualifier suited to the output package, without any, and whether it is an interface. */
  datatype TypeInfo = TypeInfo(name: string, nameWithoutQualifier: string, isInterface: bool)

  /** A package import of the generated file. */
  datatype Import = Import(path: string)

  /** One method of the wrapped type. */
  datatype Method = Method(name: string, params: seq<TypeInfo>, results: seq<TypeInfo>, variadic: bool)

  /** Everything the template needs about the wrapped type. */
  datatype TypeMetadata = TypeMetadata(
    packageName: string,
    packagePath: string,
    typeInfo: TypeInfo,
    imports: seq<Import>,
    methods: seq<Method>)

  // ---------------------------------------------------------------------
  // Parameter list

  /** The name given to parameter slot `i`: the override when there is one, else p<i>. */
  function ParamName(i: nat, overrides: seq<string>): string {
    if i < |overrides| then overrides[i] else "p" + NatToString(i)
  }

  /**
   * The variadic parameter's rendered type must be long enough to drop its
   * "[]" prefix; a shorter one makes the generator fail on a slice bound.
   */
  predicate VariadicRenderable(m: Method) {
    m.variadic && |m.params| > 0 ==> |m.params[|m.params| - 1].name| >= 2
  }

  /** What parameter slot `i` declares: "name Type", or "name ...Elem" for the variadic slot. */
  function ParamDecl(m: Method, overrides: seq<string>, i: nat): string
    requires i < |m.params| && VariadicRenderable(m)
  {
    if i == |m.params| - 1 && m.variadic then ParamName(i, overrides) + " ..." + m.params[i].name[2..]
    else ParamName(i, overrides) + " " + m.params[i].name
  }

  function ParamDecls(m: Method, overrides: seq<string>): seq<string>
    requires VariadicRenderable(m)
  {
    seq(|m.params|, i requires 0 <= i < |m.params| => ParamDecl(m, overrides, i))
  }

  /** The parameter list: every slot's declaration, separated by ", ". */
  function ParamsSignatureOf(m: Method, overrides: seq<string>): string
    requires VariadicRenderable(m)
  {
    Join(", ", ParamDecls(m, overrides))
  }

  method ParamsSignature(m: Method, overrides: seq<string>) returns (s: string)
    requires VariadicRenderable(m)
    ensures s == ParamsSignatureOf(m, overrides)
  {
    s := "";
    var mt := m.params;
    var l := |mt|;
    ghost var decls := ParamDecls(m, overrides);
    var i := 0;
    while i < l
      invariant 0 <= i <= l
      invariant s == Join(", ", decls[..i]) + (if 0 < i < l then ", " else "")
    {
      var varName := "p" + NatToString(i);
      if i < |overrides| {
        varName := overrides[i];
      }
      JoinStep(", ", decls, i);
      if i == l - 1 && m.variadic {
        var piece := varName + " ..." + mt[i].name[2..];
        assert piece == decls[i];
        s := s + piece;
      } else {
        var piece := varName + " " + mt[i].name;
        assert piece == decls[i];
        s := s + piece;
        if i < l - 1 {
          s := s + ", ";
        }
      }
      i := i + 1;
    }
    assert decls[..l] == decls;
  }

  /** Positional parameter names never clash. */
  lemma PositionalNamesDistinct(i: nat, j: nat)
    requires i != j
    ensures ParamName(i, []) != ParamName(j, [])
  {
    NatToStringInjective(i, j);
    assert ParamName(i, [])[1..] == NatToString(i);
    assert ParamName(j, [])[1..] == NatToString(j);
  }

  /**
   * The variadic form only swaps notation: rendering a variadic method is
   * rendering the same method, not variadic, whose last parameter type has
   * its "[]" prefix replaced by "...".
   */
  lemma VariadicIsSpreadOfSliceParam(m: Method, overrides: seq<string>)
    requires m.variadic && |m.params| > 0
    requires HasPrefix(m.params[|m.params| - 1].name, "[]")
    ensures var last := m.params[|m.params| - 1];
            var spread := last.(name := "..." + last.name[2..]);
            ParamsSignatureOf(m, overrides)
            == ParamsSignatureOf(m.(variadic := false, params := m.params[|m.params| - 1 := spread]), overrides)
  {
    var last := m.params[|m.params| - 1];
    var m' := m.(variadic := false, params := m.params[|m.params| - 1 := last.(name := "..." + last.name[2..])]);
    forall k | 0 <= k < |m.params|
      ensures ParamDecl(m, overrides, k) == ParamDecl(m', overrides, k)
    {
      if k == |m.params| - 1 {
        var name := ParamName(k, overrides);
        assert name + " ..." + last.name[2..] == name + " " + ("..." + last.name[2..]);
      }
    }
    assert ParamDecls(m, overrides) == ParamDecls(m', overrides);
  }

  /** A method whose only parameter is variadic with element type `elem` renders as "p0 ...elem". */
  lemma SingleVariadicParam(m: Method, elem: string)
    requires m.variadic && |m.params| == 1 && m.params[0].name == "[]" + elem
    ensures ParamsSignatureOf(m, []) == "p0 ..." + elem
  {
    assert NatToString(0) == "0";
    assert m.params[0].name[2..] == elem;
    assert ParamDecl(m, [], 0) == "p0 ..." + elem;
    assert ParamDecls(m, []) == ["p0 ..." + elem];
  }

  // ---------------------------------------------------------------------
  // Arguments of the wrapped call inside the closure

  /** Slot `i` of the call: "ctx" for slot 0, p<i> otherwise, with "..." on the variadic slot. */
  function CallArg(m: Method, i: nat): string
    requires i < |m.params|
  {
    if i == |m.params| - 1 && m.variadic then "p" + NatToString(i) + "..."
    else if i == 0 then "ctx"
    else "p" + NatToString(i)
  }

  function CallArgs(m: Method): seq<string> {
    seq(|m.params|, i requires 0 <= i < |m.params| => CallArg(m, i))
  }

  method CallSignatureWithClosure(m: Method) returns (s: string)
    ensures s == Join(", ", CallArgs(m))
  {
    s := "";
    var mt := m.params;
    var l := |mt|;
    ghost var args := CallArgs(m);
    var i := 0;
    while i < l
      invariant 0 <= i <= l
      invariant s == Join(", ", args[..i]) + (if 0 < i < l then ", " else "")
    {
      JoinStep(", ", args, i);
      if i == l - 1 && m.variadic {
        var arg := "p" + NatToString(i) + "...";
        assert arg == args[i];
        s := s + arg;
      } else {
        if i == 0 {
          s := s + "ctx";
        } else {
          var arg := "p" + NatToString(i);
          assert arg == args[i];
          s := s + arg;
        }
        if i < l - 1 {
          s := s + ", ";
        }
      }
      i := i + 1;
    }
    assert args[..l] == args;
  }

  /**
   * The call passes exactly the names the wrapper declares when its
   * parameter list is rendered with slot 0 renamed "ctx" (spreading the
   * variadic slot), except for a method whose only parameter is variadic:
   * that call passes "p0...".
   */
  lemma CallArgumentsMatchDeclaredNames(m: Method, i: nat)
    requires i < |m.params|
    ensures m.variadic && |m.params| == 1 ==> CallArg(m, i) == "p0..."
    ensures !(m.variadic && |m.params| == 1) ==>
      CallArg(m, i) == ParamName(i, ["ctx"]) + (if m.variadic && i == |m.params| - 1 then "..." else "")
  {
  }

  // ---------------------------------------------------------------------
  // Results

  function ResultNames(m: Method): seq<string> {
    seq(|m.results|, i requires 0 <= i < |m.results| => m.results[i].name)
  }

  /** The result part of the signature: the bare type for one result, else the parenthesised list. */
  method ResultsSignature(m: Method) returns (s: string)
    ensures |m.results| == 1 ==> s == m.results[0].name
    ensures |m.results| != 1 ==> s == "(" + Join(", ", ResultNames(m)) + ")"
    ensures |m.results| == 0 ==> s == "()"
  {
    var mt := m.results;
    if |mt| == 1 {
      return mt[0].name;
    }
    s := "(";
    var l := |mt|;
    ghost var names := ResultNames(m);
    var i := 0;
    while i < l
      invariant 0 <= i <= l
      invariant s == "(" + Join(", ", names[..i]) + (if 0 < i < l then ", " else "")
    {
      JoinStep(", ", names, i);
      if i == l - 1 {
        s := s + mt[i].name;
      } else {
        s := s + mt[i].name + ", ";
      }
      i := i + 1;
    }
    assert names[..l] == names;
    s := s + ")";
  }

  /** The variable holding result `i` outside the closure. */
  function ResultVar(i: nat): string {
    "r" + NatToString(i)
  }

  function ResultDecl(m: Method, i: nat): string
    requires i < |m.results|
  {
    "var " + ResultVar(i) + " " + m.results[i].name + "\n"
  }

  function ResultDecls(m: Method): seq<string>
    requires |m.results| >= 1
  {
    seq(|m.results| - 1, i requires 0 <= i < |m.results| - 1 => ResultDecl(m, i))
  }

  /** One "var r<i> Type" line per result except the last (the error). */
  function ClosureDeclarationsOf(m: Method): string
    requires |m.results| >= 1
  {
    Concat(ResultDecls(m))
  }

  method ResultsClosureVariableDeclarations(m: Method) returns (s: string)
    requires |m.results| >= 1
    ensures s == ClosureDeclarationsOf(m)
  {
    s := "";
    var n := |m.results| - 1;
    ghost var decls := ResultDecls(m);
    var i := 0;
    while i < n
      invariant 0 <= i <= n
      invariant s == Concat(decls[..i])
    {
      assert decls[..i + 1] == decls[..i] + [decls[i]];
      ConcatSnoc(decls[..i], decls[i]);
      var line := "var r" + NatToString(i) + " " + m.results[i].name + "\n";
      assert line == decls[i];
      s := s + line;
      i := i + 1;
    }
    assert decls[..n] == decls;
  }

  /** Whether the call yields nothing but its error: no result variable is needed besides err. */
  function HasOneMethodResultVariable(m: Method): (r: bool)
    ensures |m.results| == 0 ==> !r
    ensures |m.results| >= 1 ==> (r <==> ResultVars(m) == [])
  {
    |m.results| == 1
  }

  /** The variables of every result but the last. */
  function ResultVars(m: Method): seq<string>
    requires |m.results| >= 1
  {
    seq(|m.results| - 1, i requires 0 <= i < |m.results| - 1 => ResultVar(i))
  }

  function ReturnPieces(m: Method): seq<string>
    requires |m.results| >= 1
  {
    seq(|m.results| - 1, i requires 0 <= i < |m.results| - 1 => ResultVar(i) + ", ")
  }

  /** "r0, r1, ..., " : every result variable but the error's, each followed by ", ". */
  function ClosureReturnsOf(m: Method): string
    requires |m.results| >= 1
  {
    Concat(ReturnPieces(m))
  }

  /** The names bound by the wrapped call: the result variables, then "err", separated by ", ". */
  function CircuitAssignmentsOf(m: Method): string
    requires |m.results| >= 1
  {
    Join(", ", ResultVars(m) + ["err"])
  }

  /** The assignment list is the closure's return list followed by "err". */
  lemma AssignmentsAreReturnsThenErr(m: Method)
    requires |m.results| >= 1
    ensures CircuitAssignmentsOf(m) == ClosureReturnsOf(m) + "err"
    ensures HasSuffix(CircuitAssignmentsOf(m), "err")
  {
    var vars := ResultVars(m);
    JoinAsConcat(", ", vars, "err");
    assert seq(|vars|, i requires 0 <= i < |vars| => vars[i] + ", ") == ReturnPieces(m);
    var s := CircuitAssignmentsOf(m);
    assert s[|s| - 3..] == "err";
  }

  method ResultsCircuitVariableAssignments(m: Method) returns (s: string)
    requires |m.results| >= 1
    ensures s == CircuitAssignmentsOf(m)
  {
    s := "";
    var n := |m.results| - 1;
    ghost var pieces := ReturnPieces(m);
    var i := 0;
    while i < n
      invariant 0 <= i <= n
      invariant s == Concat(pieces[..i])
    {
      assert pieces[..i + 1] == pieces[..i] + [pieces[i]];
      ConcatSnoc(pieces[..i], pieces[i]);
      var piece := "r" + NatToString(i) + ", ";
      assert piece == pieces[i];
      s := s + piece;
      i := i + 1;
    }
    assert pieces[..n] == pieces;
    s := s + "err";
    AssignmentsAreReturnsThenErr(m);
  }

  method ResultsClosureVariableReturns(m: Method) returns (s: string)
    requires |m.results| >= 1
    ensures s == ClosureReturnsOf(m)
  {
    s := "";
    var n := |m.results| - 1;
    ghost var pieces := ReturnPieces(m);
    var i := 0;
    while i < n
      invariant 0 <= i <= n
      invariant s == Concat(pieces[..i])
    {
      assert pieces[..i + 1] == pieces[..i] + [pieces[i]];
      ConcatSnoc(pieces[..i], pieces[i]);
      var piece := "r" + NatToString(i) + ", ";
      assert piece == pieces[i];
      s := s + piece;
      i := i + 1;
    }
    assert pieces[..n] == pieces;
  }

  /**
   * With exactly one result there is nothing to declare or return from the
   * closure and the call binds only "err"; with more there is.
   */
  lemma OneResultMeansOnlyErr(m: Method)
    requires |m.results| >= 1
    ensures HasOneMethodResultVariable(m) <==> ClosureDeclarationsOf(m) == ""
    ensures HasOneMethodResultVariable(m) <==> ClosureReturnsOf(m) == ""
    ensures HasOneMethodResultVariable(m) <==> CircuitAssignmentsOf(m) == "err"
  {
    var n := |m.results| - 1;
    AssignmentsAreReturnsThenErr(m);
    if n > 0 {
      var decls := ResultDecls(m);
      var rets := ReturnPieces(m);
      assert decls == decls[..n - 1] + [decls[n - 1]];
      ConcatSnoc(decls[..n - 1], decls[n - 1]);
      assert rets == rets[..n - 1] + [rets[n - 1]];
      ConcatSnoc(rets[..n - 1], rets[n - 1]);
    }
  }

  /** Distinct result slots get distinct variables. */
  lemma ResultVarsDistinct(i: nat, j: nat)
    requires i != j
    ensures ResultVar(i) != ResultVar(j)
  {
    NatToStringInjective(i, j);
    assert ResultVar(i)[1..] == NatToString(i);
    assert ResultVar(j)[1..] == NatToString(j);
  }

  // ---------------------------------------------------------------------
  // Wrap eligibility

  /**
   * A method gets a circuit-wrapped body only when it takes a context
   * first and returns an error last.
   */
  function IsWrappingSupported(m: Method): (r: bool)
    ensures |m.params| == 0 || |m.results| == 0 ==> !r
    ensures |m.params| > 0 && |m.results| > 0 ==>
      (r <==> HasSuffix(m.params[0].name, "Context") && m.results[|m.results| - 1].name == "error")
  {
    if |m.params| == 0 || |m.results| == 0 then false
    else
      var supportsContext := HasSuffix(m.params[0].name, "Context");
      var returnsAnError := m.results[|m.results| - 1].name == "error";
      supportsContext && returnsAnError
  }
}
