# circuitgen type parser and template models, in Dafny

circuitgen generates a circuit-breaker wrapper around every exported method
of a Go interface or struct. This project models the generator's core:

- **parsing.go**: it finds the exported method set of the target type. It
  walks every method signature for the packages the signature mentions,
  removes repeated package paths while keeping their first-seen order, and
  decides which imports the generated file needs. It renders each
  parameter and result type with and without its package qualifier. It
  assembles all of this into a `TypeMetadata` record, or fails with an error.
- **template_models.go**: the records the templates read (`TypeMetadata`,
  `Method`, `TypeInfo`, `Import`). It also has the `Method` helpers that
  build the text fragments of a wrapper: the parameter list, the
  arguments of the embedded call, the result signature, the result
  variable declarations, assignments and returns, and the test that
  decides whether a method is wrapped at all.

Modules:

| file | module | contents |
|---|---|---|
| `wrappers.dfy` | `Wrappers` | `Option` and `Result` |
| `text.dfy` | `Text` | `Join`, prefixes and suffixes, `strings.Index`, decimal rendering of naturals |
| `gotypes.dfy` | `GoTypes` | the Go type shapes the generator inspects, packages, method-set entries, `types.TypeString` under a qualifier |
| `template_models.dfy` | `TemplateModels` | the template records and the `Method` renderers |
| `parsing.dfy` | `Parsing` | `stripVendor`, `typePackagePath`, `circuitVersionSuffix`, `resolvePkgPaths`, `uniqueStringSlice`, `parseImports`, `methodSet`, `parseTuple`, `typeInfo`, `parseType` |
| `fixtures.dfy` | `Fixtures` | lemmas that evaluate the model's functions on the repository's test types (`Aggregator`, `Publisher`) and state the fragments the checked-in generated wrapper shows |

The Go functions that build results in loops are Dafny methods with `while`
loops. This covers `resolvePkgPaths`, `uniqueStringSlice`, `parseImports`,
`methodSet`, `parseTuple`, `parseType` and the string-building `Method`
helpers. Each method is proved equal to a specification function
(`ensures r == PkgPaths(p)`, `ensures paths == Dedup(s)`, and so on). The
properties the source promises are then proved as lemmas about those
functions. The pure Go functions (`stripVendor`, `typePackagePath`,
`circuitVersionSuffix`, `typeInfo`, `IsWrappingSupported`) are Dafny
functions with contracts.

### Behaviour of the code worth knowing

- The import of the output package is dropped only when the target type
  itself lives in the output package (parsing.go:204, 214). When the type
  lives elsewhere, a method that mentions a type of the output package
  keeps that import. `Parsing.InPackageImports` and
  `Parsing.OutOfPackageImports` state the two cases separately.
- The type's own import is placed first, before the de-duplicated method
  paths, and is not de-duplicated against them (parsing.go:205-212). If a
  method also mentions the type's own package, that path appears twice.
  `Parsing.OutOfPackageImports` states this layout.
- The call arguments check for the variadic last slot before the slot-0
  `ctx` case (template_models.go:114-118). A method whose only parameter
  is variadic therefore passes `p0...`, not `ctx`.
  `TemplateModels.CallArgumentsMatchDeclaredNames` states both cases.
- The import walk accepts only signature, pointer, map, slice, named,
  basic, interface and struct types. Any other shape, such as an array or
  a channel, is an invalid-type error (parsing.go:185-186). The model
  gives those shapes `GoTypes.Other`.

## Model

| member | source | states |
|---|---|---|
| Parsing.StripVendor | parsing.go:280-289 | a path without "/vendor/" is unchanged; otherwise the result is everything after the first occurrence of "/vendor/"; the result is always a suffix of the input |
| Parsing.TypePackagePath | parsing.go:265-278 | "" for a type that is not named or has no package, else the vendor-stripped path of the declaring package |
| Parsing.CircuitVersionSuffix | parsing.go:291-296 | empty exactly when the major version is below 3; otherwise "/v" followed by the decimal digits (no leading zero) whose value is the version |
| Parsing.ResolvePkgPaths | parsing.go:143-190 | the recursive walk returns exactly `PkgPaths(p)`: the package paths of the named leaves in signature, parameter-then-result, key-then-element order, or the first unsupported shape as an error |
| Parsing.ResolveTuple | parsing.go:146-160 | the loop over a signature's parameters (or results) concatenates each entry's walk and stops at the first failing entry |
| Parsing.SignatureLeaves | parsing.go:145-161 | a signature's leaves are those of its parameters, in order, followed by those of its results |
| Parsing.WalkAppend | parsing.go:164-173 | walking two stretches in turn fails with the first one's error, else with the second's, else yields the concatenation of both paths |
| Parsing.LeafWalk | parsing.go:176-189 | a named type yields its vendor-stripped package path (none for a builtin), a basic, interface or struct yields nothing, any other shape is an invalid-type error |
| Parsing.PkgPathsCharacterized | parsing.go:143-190 | the walk fails if and only if the type contains an unsupported shape, and the error names such a shape; on success a path is returned if and only if some named part of the type has that (stripped) package path |
| Parsing.UniqueStringSlice | parsing.go:252-263 | the loop with its seen-set returns `Dedup(s)` |
| Parsing.DedupSameElements | parsing.go:252-263 | de-duplication keeps exactly the elements of its input |
| Parsing.DedupDistinct | parsing.go:252-263 | the result has no repeated element |
| Parsing.DedupFirstSeenOrder | parsing.go:252-263 | the result lists elements in the order of their first occurrence in the input |
| Parsing.DedupOfDistinct | parsing.go:252-263 | an input without repeats is returned unchanged |
| Parsing.DedupIdempotent | parsing.go:252-263 | de-duplicating twice is the same as once |
| Parsing.ResolveMethodSetPaths | parsing.go:194-201 | the first loop of parseImports returns the walk of every method, in method order, or the first method's walk error |
| Parsing.MethodSetPathsFailure | parsing.go:195-199 | collecting paths fails if and only if some method's walk fails, and the error is that of the first failing method |
| Parsing.ParseImports | parsing.go:193-220 | returns `ImportsOf`: the walk error, or the type's own import when it lives outside the output package, followed by the de-duplicated method paths with the output package removed only when the type lives in it |
| Parsing.ImportsFailOnFirstBadMethod | parsing.go:195-199 | import resolution fails if and only if some method's walk fails, with the first failing method's error |
| Parsing.ImportsFromMembers | parsing.go:212-217 | a path is imported if and only if it was collected and is not the output package while the type is in it; distinct paths give distinct imports |
| Parsing.ImportsFromAll | parsing.go:212-217 | outside the output package every collected path becomes an import, in order |
| Parsing.InPackageImports | parsing.go:204-216 | for a type in the output package the imports never name the output package, never repeat, and are exactly the collected paths other than the output package |
| Parsing.OutOfPackageImports | parsing.go:204-216 | for a type outside the output package, the first import is the type's own package, followed by exactly the de-duplicated collected paths in first-seen order |
| Parsing.MethodSet | parsing.go:124-140 | the filtering loop returns the exported entries of the intuitive method set |
| Parsing.ExportedOnlySelects | parsing.go:132-139 | an entry is kept if and only if it is in the method set and exported; the result keeps the method-set order (a subsequence) |
| Parsing.TypeInfoOf | parsing.go:235-250 | a type renders the same with and without qualifiers when every named type it mentions lives in the output package, including the named types referred to inside struct, interface and other literals |
| GoTypes.Qualify | parsing.go:239-247 | the two qualifier closures: the package name for a package other than the output package, "" for the output package and always "" when unqualified |
| GoTypes.QualifierDroppedInOutputPackage | parsing.go:239-247 | rendering relative to the output package equals unqualified rendering for every type whose named types, at any depth and inside literals, belong to the output package |
| GoTypes.LiteralQualifierDropped | parsing.go:239-247 | a struct, interface or other literal that refers only to types of the output package prints the same under both qualifiers |
| Parsing.ParseTuple | parsing.go:222-233 | returns the `TypeInfo` of each tuple entry, in order |
| Parsing.FirstNonSignature | parsing.go:94-98 | there is no non-signature method if and only if every method's type is a signature |
| Parsing.ParseType | parsing.go:77-122 | returns `TypeMetadataOf`, the error or the metadata parseType builds |
| Parsing.ParseTypeOutcome | parsing.go:78-111 | parsing succeeds if and only if the exported set is non-empty, imports resolve, every method is a signature and the type is named; an empty set gives the empty-method-set error, and an import error or a non-signature method gives that error |
| Parsing.ParseTypeMethods | parsing.go:90-119 | on success there is one method record per exported method, in order, with its name, exportedness, variadic flag and parameter and result counts; the package path is the type's and the imports are those resolved |
| Parsing.ParseTypeInPackage | parsing.go:204-216 | metadata of a type in the output package holds no import of the output package and no repeated import |
| Parsing.ParsedMethodRenderable | parsing.go:100-105 | a parsed variadic method's last parameter renders with a leading "[]" with and without qualifier, so the parameter renderer can drop it |
| GoTypes.SliceRendersWithBrackets | template_models.go:93-95 | a slice type's text starts with "[]" and the rest is its element's text |
| Text.Index | parsing.go:283 | strings.Index: -1 exactly when the pattern does not occur, else the first occurrence |
| Text.NatToString | template_models.go:86 | decimal digits, never empty, with no leading zero except for 0 |
| Text.DecimalRoundTrip | parsing.go:295 | reading back the rendered digits gives the number |
| Text.NatToStringInjective | template_models.go:86 | different numbers render differently |
| TemplateModels.ParamsSignature | template_models.go:80-105 | the loop returns the declarations of all parameter slots joined by ", ", each "name Type" and the variadic last one "name ...Elem", names from the overrides first, then "p<i>" |
| TemplateModels.PositionalNamesDistinct | template_models.go:86 | positional parameter names "p<i>" of different slots differ |
| TemplateModels.VariadicIsSpreadOfSliceParam | template_models.go:92-95 | a variadic list equals the non-variadic list whose last type is "..." + the slice's element |
| TemplateModels.SingleVariadicParam | template_models.go:92-95 | a lone variadic parameter of type []E renders as "p0 ...E" |
| TemplateModels.CallSignatureWithClosure | template_models.go:108-130 | the loop returns the call arguments joined by ", ": "ctx" for slot 0, "p<i>" for the others, "p<last>..." for the variadic slot |
| TemplateModels.CallArgumentsMatchDeclaredNames | template_models.go:113-126 | each call argument is the name the parameter list declares with ["ctx"] overrides (with "..." on the variadic slot); a lone variadic parameter is passed as "p0..." |
| TemplateModels.ResultsSignature | template_models.go:134-151 | one result gives its bare type; otherwise the types joined by ", " in parentheses, "()" for none |
| TemplateModels.ResultsClosureVariableDeclarations | template_models.go:156-163 | the loop returns one "var r<i> Type\n" line for every result but the last |
| TemplateModels.ResultsCircuitVariableAssignments | template_models.go:172-182 | the loop returns "r<i>, " for every result but the last, then "err" |
| TemplateModels.ResultsClosureVariableReturns | template_models.go:186-193 | the loop returns "r<i>, " for every result but the last |
| TemplateModels.AssignmentsAreReturnsThenErr | template_models.go:172-193 | the assignment list is the return list followed by "err", so it always ends in "err" |
| TemplateModels.HasOneMethodResultVariable | template_models.go:165-168 | false without results; otherwise true if and only if no result variable besides err is needed |
| TemplateModels.OneResultMeansOnlyErr | template_models.go:165-193 | a method has one result if and only if it declares no result variables, returns no variables and assigns only "err" |
| TemplateModels.ResultVarsDistinct | template_models.go:159 | result variables "r<i>" of different slots differ |
| TemplateModels.IsWrappingSupported | template_models.go:196-205 | false without parameters or results; otherwise true if and only if the first parameter's type ends in "Context" and the last result's type is "error" |
| Fixtures.AggregatorMethodSet | internal/circuitgentest/aggregator.go:26-40 | Aggregator's exported method set is IncSum, Sum; privateIncSum is dropped |
| Fixtures.ContextInfo | internal/circuitgentest/aggregator.go:27 | context.Context outside its package renders "context.Context" / "Context" and is an interface |
| Fixtures.IncSumParsed | internal/circuitgentest/aggregator.go:27 | IncSum parses to params context.Context, int and result error, not variadic |
| Fixtures.IncSumWrapped | internal/circuitgentest/circuittest/aggregator.gen.go:27-28 | IncSum is wrapped, Sum is not |
| Fixtures.IncSumParams | internal/circuitgentest/circuittest/aggregator.gen.go:80 | IncSum's parameter list is "ctx context.Context, p1 int" |
| Fixtures.IncSumCall | internal/circuitgentest/circuittest/aggregator.gen.go:84 | IncSum's embedded call passes "ctx, p1" |
| Fixtures.IncSumResults | internal/circuitgentest/circuittest/aggregator.gen.go:84 | IncSum assigns only "err" and declares no result variables |
| Fixtures.IncSumPaths | internal/circuitgentest/aggregator.go:27 | IncSum's signature mentions only the context package |
| Fixtures.SumPaths | internal/circuitgentest/aggregator.go:33 | Sum's signature mentions no package |
| Fixtures.AggregatorPaths | internal/circuitgentest/aggregator.go:26-35 | the method walk of Aggregator collects the context path once |
| Fixtures.AggregatorImports | internal/circuitgentest/circuittest/aggregator.gen.go:5-10 | generated in its own package Aggregator imports only context; generated elsewhere it imports its own package, then context |
| Fixtures.ClientStructInfo | parsing.go:239-247 | the literal struct{C *foo.Client} seen from another package has Name "struct{C *foo.Client}" and NameWithoutQualifier "struct{C *Client}" |
| Fixtures.GrantMapText | internal/circuitgentest/publisher.go:43 | map[Seed][][]Grant renders unqualified inside its package |
| Fixtures.PublishOptionText | internal/circuitgentest/publisher.go:43 | []rep.PublishOption renders "[]rep.PublishOption" qualified and "[]PublishOption" unqualified |
| Fixtures.PublishParamInfos | internal/circuitgentest/publisher.go:43 | Publish's parameter types render as the expected four TypeInfo records |
| Fixtures.PublishParsed | internal/circuitgentest/publisher.go:43 | Publish parses to the expected variadic method record |
| Fixtures.PublisherWrapped | internal/circuitgentest/publisher.go:38-46 | Publish is wrapped; Close, which takes no context, is not |
| Fixtures.PublishVariadicDecl | internal/circuitgentest/publisher.go:43 | Publish's variadic slot declares "p3 ...rep.PublishOption" |
| Fixtures.PublishCallArgs | internal/circuitgentest/publisher.go:43 | Publish's embedded call passes ctx, p1, p2, p3... |

## Left out

- Package loading (`resolvePackagePath`, `loadPackages`, `firstPackagesError`, parsing.go:28-75): these call the Go package loader and the file system. The model starts from a loaded type and its method set.
- `typeutil.IntuitiveMethodSet`: the method set is an input sequence of `Selection`s. The interface-or-struct choice at parsing.go:126-130 only decides which argument that library receives, and the library is not part of this model.
- GoTypes.TypeString: signature types render without parameter names. Interface, struct and all other literal shapes (arrays, channels, type parameters) are not parsed into fields or methods. They are a sequence of verbatim text and references to named types, and only the references are qualified. This matches what Go's qualifier changes, but the model does not check that the text is well-formed Go.
- Named types are leaves: their underlying type is not walked (as in the code); only whether it is an interface is kept, for `types.IsInterface`.
- Parsing.TypePackagePath: the `tn.Obj() == nil` branch (parsing.go:271-273) is not modelled separately, because a named type always has a declaring object in a loaded program; a named type without a package covers the remaining "" case.
- GoTypes.IsExported: only ASCII upper-case initials count as exported, while Go's `token.IsExported` accepts every Unicode upper-case letter.
- Parsing.ParseType: the nil dereference of `tn.Obj().Pkg()` for a named type without a package (parsing.go:114) is a precondition, not a modelled crash.
- TemplateModels.ResultsClosureVariableDeclarations, TemplateModels.ResultsCircuitVariableAssignments, TemplateModels.ResultsClosureVariableReturns: the slice `m.Results[:len(m.Results)-1]` panics on a method without results, which is a precondition (at least one result) here.
- TemplateModels.ParamsSignature: slicing off "[]" panics when the variadic parameter's rendered type is shorter than two characters, which is a precondition here; `Parsing.ParsedMethodRenderable` shows that parsed methods always meet it.
- The loops of `resolvePkgPaths` over a signature's parameters and results, and the first loop of `parseImports`, are separate helper methods (`ResolveTuple`, `ResolveMethodSetPaths`). They run the same steps in the same order.
- The Go templates, gofmt/goimports, command-line handling and file writing are not part of this model. The fixtures stop at the fragments the `Method` helpers produce.
- The fixtures take the package paths of `context`, the test package and `rep` as parameters (with only the distinctness and no-vendor facts they need) instead of fixing the repository's module paths.
