# UML diagram code generator, modelled in Dafny

This project models the code generator of a small UML class-diagram editor.
A diagram is a list of class boxes and a list of relationships. The generator
turns a diagram into Java, PHP or Python source text. For every class, in
diagram order, it does the following:

- it splits the raw name `"<visibility> <ClassName>"` on spaces;
- it parses every attribute string `"+name: Type"` into a `{ name, type }`
  pair and every method string `"+speak"` into a name;
- it finds the parent class through the first `Inheritance` relationship
  leaving the class;
- it hands the result to the emitter the language names and appends the
  emitted text to an accumulator.

At the end the accumulator is trimmed.

Modules:

- `Wrappers`: `Option`, which stands for a JavaScript value that may be
  `undefined`.
- `JsString`: the JavaScript primitives the generator uses, with the
  semantics ECMAScript gives them for the arguments it passes:
  - `split` on one character, and `join`;
  - `replace` with a string pattern, which replaces the first occurrence only;
  - the search for the first occurrence of a character, which `split` and
    `replace` both perform (`IndexOf`);
  - `trim`, over the WhiteSpace and LineTerminator code points;
  - `map`, and template interpolation of `undefined`;
  - the generator's `capitalize`.

  The `+=` loop over the classes is `ConcatAll`.
- `Model`: the diagram, the relationship, the parsed attribute and the
  normalized class.
- `Normalizer`: the name, attribute and method parsing of
  `generateCodeFromDiagram`.
- `Resolver`: the two `find` calls that resolve the parent class, and the
  `inheritance` string.
- `Emitters`: `generateJavaCode`, `generatePHPCode` and `generatePythonCode`.
  Each emitter is a function built from the same `map`/`join` sections and
  template text as the original, including Python's `{toStringBody}`, which
  lacks the `$` of an interpolation and so is emitted as it is.
- `Generator`: the `forEach` loop as a method that appends to `code` and then
  trims it. The loop is proved equal to the specification function
  `Generated`. The module also holds the lemmas about the whole output.

The model follows the code as written, quirks included:

- A name with one token, such as `"Animal"`, has an `undefined` class name.
  The token becomes the visibility. `"public"` is used only when the text
  before the first space is empty.
- `replace("+", "")` removes the first `+` wherever it is, not only a
  leading one.
- An attribute without a colon has type `undefined`. It is rendered as the
  text `undefined`; no language default is substituted.
- An unknown language, including a differently-cased `"java"`, appends
  nothing, so the result is `""`. No error is raised.
- PHP puts `" extends "` in front of an inheritance string that already
  starts with `" extends "`. Python puts it in parentheses as it is. The
  results are `class A extends  extends B {` and `class A( extends B):`.
- Python's `__str__` is `return f"A({toStringBody})"` for every class `A`:
  the template writes `{toStringBody}` without a `$`, so the literal text is
  emitted and the attribute list computed for it is never used. Java and PHP
  classes without attributes get `"A{" +  + "}"` and `"A{" .  . "}"` in
  their `toString`.
- The Python declaration ignores the visibility.

## Model

All source paths are in `Backend1/src/services/codeGenerationService.js`.

| member | source | states |
|---|---|---|
| JsString.Split | Backend1/src/services/codeGenerationService.js:6 | `split` with a one-character separator never returns an empty array |
| JsString.SplitPieces | Backend1/src/services/codeGenerationService.js:6-7 | there is more than one piece exactly when the string holds the separator, and no piece holds it |
| JsString.SplitFirstPiece | Backend1/src/services/codeGenerationService.js:7 | piece 0 is the longest prefix free of the separator, followed by the separator or the end |
| JsString.SplitAt | Backend1/src/services/codeGenerationService.js:6 | the first piece is the text before the first separator and the rest is the split of what follows |
| JsString.JoinSplit | Backend1/src/services/codeGenerationService.js:11 | joining the pieces of a split with the separator gives the string back |
| JsString.SplitJoin | Backend1/src/services/codeGenerationService.js:39 | splitting a join of separator-free parts gives the parts back |
| JsString.SplitConcat | Backend1/src/services/codeGenerationService.js:11 | splitting around one separator is splitting either side and concatenating |
| JsString.IndexOf | Backend1/src/services/codeGenerationService.js:11 | the search `split` and `replace` perform: the first position of the character, `None` exactly when it is absent |
| JsString.RemoveFirst | Backend1/src/services/codeGenerationService.js:11 | `replace` leaves a string without the character unchanged and otherwise shortens it by one |
| JsString.RemoveFirstAt | Backend1/src/services/codeGenerationService.js:11 | only the first `+` is removed; later copies stay |
| JsString.Trim | Backend1/src/services/codeGenerationService.js:34 | the result has no white space at either end, and is empty exactly when the input is all white space |
| JsString.TrimStartSpec | Backend1/src/services/codeGenerationService.js:34 | the start trim keeps a suffix that does not begin with white space and cuts off only white space |
| JsString.TrimEndSpec | Backend1/src/services/codeGenerationService.js:34 | the end trim keeps a prefix that does not end with white space and cuts off only white space |
| JsString.TrimAround | Backend1/src/services/codeGenerationService.js:34 | white space around a trimmed text is exactly what `trim` removes |
| JsString.TrimIdempotent | Backend1/src/services/codeGenerationService.js:34 | trimming twice is trimming once |
| JsString.TrimLeadingSpace | Backend1/src/services/codeGenerationService.js:11 | the space after `:` in `"name: Type"` is all that `trim` removes from the type |
| JsString.ToUpperAscii | Backend1/src/services/codeGenerationService.js:143 | lower-case ASCII letters map to their upper-case letter; every other character is unchanged |
| JsString.Capitalize | Backend1/src/services/codeGenerationService.js:143 | same length, only the first character upper-cased, rest unchanged, `""` maps to `""` |
| JsString.Render | Backend1/src/services/codeGenerationService.js:22 | interpolating `undefined` gives the text `undefined`; a string is interpolated as it is |
| JsString.MapSeq | Backend1/src/services/codeGenerationService.js:10-14 | `map` gives one result per element, in the same order |
| JsString.MapJoinAppend | Backend1/src/services/codeGenerationService.js:39 | one more element at the end adds the separator and its image at the end |
| JsString.MapJoinPieces | Backend1/src/services/codeGenerationService.js:39 | when no image holds the separator, splitting the join recovers the images in order |
| JsString.ConcatAllAppend | Backend1/src/services/codeGenerationService.js:5-32 | the accumulated text of two runs of classes is the first run's text followed by the second's |
| JsString.ConcatAllWhiteSpace | Backend1/src/services/codeGenerationService.js:34 | the accumulated text is all white space exactly when every class text is |
| Normalizer.VisibilityOf | Backend1/src/services/codeGenerationService.js:7 | the visibility is never empty and holds no space. It is `"public"` when the name is empty or starts with a space; otherwise it is the text before the first space |
| Normalizer.ClassNameOf | Backend1/src/services/codeGenerationService.js:6 | the class name is `undefined` exactly when the name holds no space, and never holds a space |
| Normalizer.NameTokens | Backend1/src/services/codeGenerationService.js:6-7 | for `<first> <second><rest>`, the visibility is `first` (`"public"` if empty) and the class name is `second` |
| Normalizer.NameWithoutSpace | Backend1/src/services/codeGenerationService.js:6-7 | a one-token name is all visibility and has an `undefined` class name |
| Normalizer.NameRoundTrip | Backend1/src/services/codeGenerationService.js:6-7 | `"<visibility> <ClassName>"` splits back into its two parts |
| Normalizer.RemovePlusKeepsColons | Backend1/src/services/codeGenerationService.js:11 | removing the first `+` neither adds nor removes a colon |
| Normalizer.TrimKeepsAbsent | Backend1/src/services/codeGenerationService.js:11 | trimming never introduces a character |
| Normalizer.ParseAttribute | Backend1/src/services/codeGenerationService.js:10-13 | the type is `undefined` exactly when the string has no colon; name and type are trimmed and colon-free |
| Normalizer.ParseAttributeFields | Backend1/src/services/codeGenerationService.js:11 | the name is the trimmed text before the first colon and the type the trimmed text up to the second; the rest is dropped |
| Normalizer.ParseAttributeUntyped | Backend1/src/services/codeGenerationService.js:11 | without a colon, the whole trimmed string minus its first `+` is the name |
| Normalizer.ParseAttributeRoundTrip | Backend1/src/services/codeGenerationService.js:11 | `"+name: Type"` parses back to `name` and `Type` |
| Normalizer.ParseMethod | Backend1/src/services/codeGenerationService.js:14 | the method name is trimmed, and is the trimmed string when there is no `+` |
| Normalizer.ParseMethodRoundTrip | Backend1/src/services/codeGenerationService.js:14 | `"+name"` parses back to `name` |
| Normalizer.Normalize | Backend1/src/services/codeGenerationService.js:6-14 | attributes and methods keep their number and order, each parsed on its own; the class name is `undefined` exactly when the name has no space |
| Normalizer.NormalizeName | Backend1/src/services/codeGenerationService.js:6-7 | the normalized class carries the name's class-name token and visibility |
| Resolver.FindInheritance | Backend1/src/services/codeGenerationService.js:17-19 | the result is the first `Inheritance` relationship with this source, and `undefined` exactly when there is none |
| Resolver.FindClass | Backend1/src/services/codeGenerationService.js:21 | the result is the first class with the target id, and `undefined` exactly when there is none |
| Resolver.ParentOf | Backend1/src/services/codeGenerationService.js:17-23 | there is a parent exactly when both `find` calls succeed, and it is the class the second one finds |
| Resolver.InheritanceOf | Backend1/src/services/codeGenerationService.js:16-23 | the inheritance string is empty exactly when there is no parent, and otherwise is `" extends "` and the parent's second name token |
| Resolver.FirstInheritanceWins | Backend1/src/services/codeGenerationService.js:17-19 | with several inheritance relationships from one class, the first in input order is chosen |
| Resolver.DanglingTarget | Backend1/src/services/codeGenerationService.js:20-23 | a target id that names no class gives an empty inheritance string, not an error |
| Resolver.InheritanceResolved | Backend1/src/services/codeGenerationService.js:17-23 | a first inheritance relationship to the class `"<v> <Parent>"` gives `" extends Parent"` |
| Resolver.NoInheritance | Backend1/src/services/codeGenerationService.js:16-20 | with no inheritance relationship from the class, the inheritance string is empty |
| Emitters.JavaCode | Backend1/src/services/codeGenerationService.js:60-77 | the text starts with a blank line and the declaration line, ends with `}` on its own line, and is not all white space |
| Emitters.JavaAttributeOrder | Backend1/src/services/codeGenerationService.js:39-58 | an attribute added at the end adds its field, parameter, assignment, accessors and `toString` pair at the end of each section |
| Emitters.JavaMethodOrder | Backend1/src/services/codeGenerationService.js:55 | a method added at the end adds its `// TODO: Implement` stub at the end |
| Emitters.JavaFieldLines | Backend1/src/services/codeGenerationService.js:39-54 | the field block and the constructor body have one line per attribute, in order, with the exact text of each line |
| Emitters.JavaEmptyClass | Backend1/src/services/codeGenerationService.js:60-77 | the exact text for a class with no attributes and no methods, including the empty `toString` operand |
| Emitters.PhpCode | Backend1/src/services/codeGenerationService.js:100-118 | the text starts with a blank line and the declaration line, ends with `}` on its own line, and is not all white space |
| Emitters.PhpAttributeOrder | Backend1/src/services/codeGenerationService.js:82-113 | an attribute added at the end adds its piece at the end of every PHP section |
| Emitters.PhpMethodOrder | Backend1/src/services/codeGenerationService.js:98 | a method added at the end adds its stub at the end |
| Emitters.PhpFieldLines | Backend1/src/services/codeGenerationService.js:82-97 | the field block and the constructor body have one line per attribute, in order, with the exact text of each line |
| Emitters.PythonCode | Backend1/src/services/codeGenerationService.js:130-139 | the text starts with a blank line and the `class` line, ends with a line break, and is not all white space; `__str__` carries the literal `{toStringBody}` |
| Emitters.PythonAttributeOrder | Backend1/src/services/codeGenerationService.js:123-124 | an attribute added at the end adds its `__init__` parameter and its assignment at the end of each section |
| Emitters.PythonMethodOrder | Backend1/src/services/codeGenerationService.js:125-127 | a method added at the end adds its stub at the end |
| Emitters.PythonInitLines | Backend1/src/services/codeGenerationService.js:124 | the `__init__` body has one `self.x = x` line per attribute, in order |
| Emitters.PythonOneAttribute | Backend1/src/services/codeGenerationService.js:122-140 | the exact text for a class with one attribute and one method; `__str__` returns `f"<Name>({toStringBody})"` |
| Generator.EmitClassSpec | Backend1/src/services/codeGenerationService.js:25-31 | an unknown language contributes `""`; a supported one contributes text that starts a new line and is not all white space |
| Generator.ClassTexts | Backend1/src/services/codeGenerationService.js:5-31 | one text per class, in class order, each the text of that class |
| Generator.GeneratedSpec | Backend1/src/services/codeGenerationService.js:25-34 | the output is trimmed, and is `""` exactly when there are no classes or the language is not `Java`, `PHP` or `Python` |
| Generator.VisitClass | Backend1/src/services/codeGenerationService.js:5-31 | one `forEach` step appends exactly the class's emitted text to `code` |
| Generator.GenerateCodeFromDiagram | Backend1/src/services/codeGenerationService.js:1-35 | the loop appends every class's text in order, and the trimmed result equals `Generated` |
| Generator.ClassOrder | Backend1/src/services/codeGenerationService.js:5-32 | the untrimmed output is the text of the first `m` classes followed by the text of the rest |
| Generator.SingleClass | Backend1/src/services/codeGenerationService.js:5-34 | a one-class diagram gives that class's text, trimmed |
| Generator.UnsupportedLanguage | Backend1/src/services/codeGenerationService.js:25-31 | `"Rust"` and `"java"` give `""` and no error |
| Generator.ParentClauses | Backend1/src/services/codeGenerationService.js:101 | with a parent `P`, Java declares `extends P`, PHP `extends  extends P`, and Python `( extends P)` |
| Generator.NoParentClauses | Backend1/src/services/codeGenerationService.js:131 | without a parent, none of the three declarations has an inheritance clause |

## Left out

- The HTTP layer is not part of this model: the Express routes, the controller's 400 response, and the frontend that posts the diagram. It is transport, not generation logic.
- The diagram editor UI is not part of this model.
- Missing fields make the original throw a `TypeError`, and the model's types always supply them, so those failure paths are not represented. This covers a missing `classes`, a missing `cls.attributes` or `cls.methods` (lines 10 and 14), and a class name that is not a string. A missing `relationships` throws only when there is at least one class, because `relationships.find` runs inside the `forEach` (line 17).
- Class ids are modelled as strings. A missing id, which the frontend produces by dropping ids, is not represented; with it, every class whose id is `undefined` would match an `undefined` source.
- ToUpperAscii: upper-cases ASCII letters only. JavaScript's `toUpperCase` also maps non-ASCII letters, and some of them to more than one character; that is not modelled.
- The Python `toStringBody` list (line 128) is computed and never emitted, so it is not modelled.
- Determinism and the absence of side effects are not stated as separate properties. They hold because `Generated` is a function.
- No error is raised for an unknown language or a malformed request; the model has no error results because the code raises none of its own.
- JavaCode, PhpCode and PythonCode state the start, the end and the non-emptiness of the text. The full text is their definition. It is pinned down for concrete shapes by JavaEmptyClass and PythonOneAttribute.
