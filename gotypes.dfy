/**
 * The part of Go's type system the generator inspects (package go/types),
 * as plain values: the type shapes, the packages that define named types,
 * the method-set entries, and the rendering of a type as source text
 * (types.TypeString) under a package qualifier.
 */
module GoTypes {
  import opened Wrappers
  import opened Text

  /** A Go package: its short name (used as a qualifier) and its import path. */
  datatype Package = Package(name: string, path: string)

  /**
   * A stretch of the source text of a literal type: text printed as is,
   * or a reference to a named type, printed with its package qualifier.
   */
  datatype Piece =
    | Verbatim(text: string)
    | Ref(pkg: Package, name: string)

  /**
   * A Go type. Named types are leaves: their underlying type is not
   * walked, only whether it is an interface is kept. Builtin named types
   * such as `error` have no package. Interface and struct literals, and
   * every other shape (array, channel, tuple, type parameter, ...), carry
   * the text Go prints for them as pieces, so that the named types they
   * mention are qualified like any other.
   */
  datatype GoType =
    | Signature(params: seq<GoType>, results: seq<GoType>, variadic: bool)
    | Pointer(elem: GoType)
    | Map(key: GoType, elem: GoType)
    | Slice(elem: GoType)
    | Named(pkg: Option<Package>, name: string, underlyingIsInterface: bool)
    | Basic(name: string)
    | Interface(pieces: seq<Piece>)
    | Struct(pieces: seq<Piece>)
    | Other(pieces: seq<Piece>)

  /**
   * What the Go type checker guarantees of a signature: a variadic one
   * has a last parameter, and that parameter has a slice type.
   */
  predicate WellFormedSignature(t: GoType) {
    t.Signature? && (t.variadic ==> |t.params| > 0 && t.params[|t.params| - 1].Slice?)
  }

  /** types.IsInterface: the type, or the type it names, is an interface. */
  predicate IsInterface(t: GoType) {
    t.Interface? || (t.Named? && t.underlyingIsInterface)
  }

  /** The package qualifiers the generator hands to types.TypeString. */
  datatype Qualifier =
    | RelativeTo(outPkgPath: string)  // drop the qualifier for the output package, else the package name
    | Unqualified                     // never qualify

  function Qualify(q: Qualifier, p: Package): (r: string)
    ensures q.RelativeTo? && p.path != q.outPkgPath ==> r == p.name
    ensures q.Unqualified? || p.path == q.outPkgPath ==> r == ""
  {
    match q
    case RelativeTo(out) => if p.path == out then "" else p.name
    case Unqualified => ""
  }

  /** A type name as Go prints it: bare when the qualifier is empty, else "qualifier.name". */
  function QualifiedName(q: Qualifier, p: Package, name: string): string {
    var qualifier := Qualify(q, p);
    if qualifier == "" then name else qualifier + "." + name
  }

  function PieceText(piece: Piece, q: Qualifier): string {
    match piece
    case Verbatim(text) => text
    case Ref(p, name) => QualifiedName(q, p, name)
  }

  /** The text of a literal type: its pieces, one after the other. */
  function LiteralText(pieces: seq<Piece>, q: Qualifier): string {
    Concat(seq(|pieces|, i requires 0 <= i < |pieces| => PieceText(pieces[i], q)))
  }

  /** types.TypeString: the Go source text of a type, with package qualifiers chosen by `q`. */
  function TypeString(t: GoType, q: Qualifier): string
    decreases t
  {
    match t
    case Signature(ps, rs, variadic) =>
      var paramTexts := seq(|ps|, i requires 0 <= i < |ps| =>
        if variadic && i == |ps| - 1 && ps[i].Slice? then "..." + TypeString(ps[i].elem, q)
        else TypeString(ps[i], q));
      var resultTexts := seq(|rs|, i requires 0 <= i < |rs| => TypeString(rs[i], q));
      "func(" + Join(", ", paramTexts) + ")"
        + (if |rs| == 0 then ""
           else if |rs| == 1 then " " + resultTexts[0]
           else " (" + Join(", ", resultTexts) + ")")
    case Pointer(e) => "*" + TypeString(e, q)
    case Map(k, e) => "map[" + TypeString(k, q) + "]" + TypeString(e, q)
    case Slice(e) => "[]" + TypeString(e, q)
    case Named(pkg, name, _) =>
      if pkg.None? then name else QualifiedName(q, pkg.value, name)
    case Basic(name) => name
    case Interface(pieces) => LiteralText(pieces, q)
    case Struct(pieces) => LiteralText(pieces, q)
    case Other(pieces) => LiteralText(pieces, q)
  }

  /** One entry of a type's method set (a types.Selection): the method's name and type. */
  datatype Selection = Selection(name: string, typ: GoType)

  /**
   * token.IsExported: the name starts with an upper-case letter (ASCII
   * letters only in this model).
   */
  predicate IsExported(name: string) {
    |name| > 0 && 'A' <= name[0] <= 'Z'
  }

  /** Every named type met in `t` with a package lives in `out`. */
  predicate NamedOnlyIn(t: GoType, out: string)
    decreases t
  {
    match t
    case Signature(ps, rs, _) =>
      (forall i :: 0 <= i < |ps| ==> NamedOnlyIn(ps[i], out))
      && (forall i :: 0 <= i < |rs| ==> NamedOnlyIn(rs[i], out))
    case Pointer(e) => NamedOnlyIn(e, out)
    case Map(k, e) => NamedOnlyIn(k, out) && NamedOnlyIn(e, out)
    case Slice(e) => NamedOnlyIn(e, out)
    case Named(pkg, _, _) => pkg.None? || pkg.value.path == out
    case Basic(_) => true
    case Interface(pieces) => RefsOnlyIn(pieces, out)
    case Struct(pieces) => RefsOnlyIn(pieces, out)
    case Other(pieces) => RefsOnlyIn(pieces, out)
  }

  /** Every named type a literal refers to lives in `out`. */
  predicate RefsOnlyIn(pieces: seq<Piece>, out: string) {
    forall i :: 0 <= i < |pieces| && pieces[i].Ref? ==> pieces[i].pkg.path == out
  }

  /** A literal that refers only to types of `out` prints the same with and without qualification. */
  lemma LiteralQualifierDropped(pieces: seq<Piece>, out: string)
    requires RefsOnlyIn(pieces, out)
    ensures LiteralText(pieces, RelativeTo(out)) == LiteralText(pieces, Unqualified)
  {
    assert seq(|pieces|, i requires 0 <= i < |pieces| => PieceText(pieces[i], RelativeTo(out)))
        == seq(|pieces|, i requires 0 <= i < |pieces| => PieceText(pieces[i], Unqualified));
  }

  /**
   * The qualifier rule: a type all of whose named parts belong to the
   * output package renders the same with and without qualification.
   */
  lemma {:induction false} QualifierDroppedInOutputPackage(t: GoType, out: string)
    requires NamedOnlyIn(t, out)
    ensures TypeString(t, RelativeTo(out)) == TypeString(t, Unqualified)
    decreases t
  {
    match t
    case Signature(ps, rs, variadic) =>
      forall i | 0 <= i < |ps|
        ensures TypeString(ps[i], RelativeTo(out)) == TypeString(ps[i], Unqualified)
        ensures ps[i].Slice? ==> TypeString(ps[i].elem, RelativeTo(out)) == TypeString(ps[i].elem, Unqualified)
      {
        QualifierDroppedInOutputPackage(ps[i], out);
        if ps[i].Slice? {
          QualifierDroppedInOutputPackage(ps[i].elem, out);
        }
      }
      forall i | 0 <= i < |rs|
        ensures TypeString(rs[i], RelativeTo(out)) == TypeString(rs[i], Unqualified)
      {
        QualifierDroppedInOutputPackage(rs[i], out);
      }
      var q1, q2 := RelativeTo(out), Unqualified;
      assert seq(|ps|, i requires 0 <= i < |ps| =>
               if variadic && i == |ps| - 1 && ps[i].Slice? then "..." + TypeString(ps[i].elem, q1)
               else TypeString(ps[i], q1))
          == seq(|ps|, i requires 0 <= i < |ps| =>
               if variadic && i == |ps| - 1 && ps[i].Slice? then "..." + TypeString(ps[i].elem, q2)
               else TypeString(ps[i], q2));
      assert seq(|rs|, i requires 0 <= i < |rs| => TypeString(rs[i], q1))
          == seq(|rs|, i requires 0 <= i < |rs| => TypeString(rs[i], q2));
    case Pointer(e) => QualifierDroppedInOutputPackage(e, out);
    case Map(k, e) =>
      QualifierDroppedInOutputPackage(k, out);
      QualifierDroppedInOutputPackage(e, out);
    case Slice(e) => QualifierDroppedInOutputPackage(e, out);
    case Named(_, _, _) =>
    case Basic(_) =>
    case Interface(pieces) => LiteralQualifierDropped(pieces, out);
    case Struct(pieces) => LiteralQualifierDropped(pieces, out);
    case Other(pieces) => LiteralQualifierDropped(pieces, out);
  }

  /** A slice type renders with the "[]" prefix under any qualifier. */
  lemma SliceRendersWithBrackets(e: GoType, q: Qualifier)
    ensures HasPrefix(TypeString(Slice(e), q), "[]")
    ensures TypeString(Slice(e), q)[2..] == TypeString(e, q)
  {
  }
}
