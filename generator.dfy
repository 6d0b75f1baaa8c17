/**
 * `generateCodeFromDiagram`: for every class in order, normalize it, find
 * its parent, hand it to the emitter the language names, append the text,
 * and trim the whole at the end.
 */
module Generator {
  import opened Wrappers
  import opened JsString
  import opened Model
  import opened Normalizer
  import opened Resolver
  import opened Emitters

  /** The language strings with an emitter; the comparison is exact and case-sensitive. */
  predicate Supported(language: string) {
    language == "Java" || language == "PHP" || language == "Python"
  }

  /** The text one class contributes: the emitter's output for a supported language, nothing otherwise. */
  function EmitClass(d: DiagramData, language: string, cls: ClassNode): (r: string)
  {
    var n := Normalize(cls);
    var inheritance := InheritanceOf(d, cls);
    if language == "Java" then JavaCode(n, inheritance)
    else if language == "PHP" then PhpCode(n, inheritance)
    else if language == "Python" then PythonCode(n, inheritance)
    else ""
  }

  /**
   * An unknown language contributes nothing; a supported one always
   * contributes text that starts a new line and is not all white space.
   */
  lemma EmitClassSpec(d: DiagramData, language: string, cls: ClassNode)
    ensures !Supported(language) ==> EmitClass(d, language, cls) == ""
    ensures Supported(language) ==> var r := EmitClass(d, language, cls);
      |r| >= 2 && r[0] == '\n' && !AllWhiteSpace(r)
  {
  }

  /** The text each class contributes, in class order. */
  function ClassTexts(d: DiagramData, language: string): (ts: seq<string>)
    ensures |ts| == |d.classes|
    ensures forall k :: 0 <= k < |d.classes| ==> ts[k] == EmitClass(d, language, d.classes[k])
  {
    MapSeq((cls: ClassNode) => EmitClass(d, language, cls), d.classes)
  }

  /**
   * What `generateCodeFromDiagram` returns: the texts of all classes
   * concatenated in class order, trimmed at both ends.
   */
  function Generated(d: DiagramData, language: string): (r: string)
  {
    Trim(ConcatAll(ClassTexts(d, language)))
  }

  /**
   * The generated text is trimmed, and it is empty exactly when the diagram
   * has no class or the language has no emitter: an unknown language is not
   * an error.
   */
  lemma GeneratedSpec(d: DiagramData, language: string)
    ensures Trimmed(Generated(d, language))
    ensures Generated(d, language) == "" <==> |d.classes| == 0 || !Supported(language)
  {
    var ts := ClassTexts(d, language);
    ConcatAllWhiteSpace(ts);
    if Supported(language) {
      if |d.classes| > 0 {
        EmitClassSpec(d, language, d.classes[0]);
        assert !AllWhiteSpace(ts[0]);
      }
    } else {
      forall k | 0 <= k < |ts|
        ensures AllWhiteSpace(ts[k])
      {
        EmitClassSpec(d, language, d.classes[k]);
      }
    }
  }

  /**
   * The `forEach` callback for one class: split the name, parse attributes
   * and methods, resolve the parent, and append what the language's emitter
   * produces to `code` (nothing for an unknown language).
   */
  method VisitClass(d: DiagramData, language: string, cls: ClassNode, code: string) returns (code': string)
    ensures code' == code + EmitClass(d, language, cls)
  {
    var className := ClassNameOf(cls.name);
    var visibility := VisibilityOf(cls.name);
    var attributes := MapSeq(ParseAttribute, cls.attributes);
    var methods := MapSeq(ParseMethod, cls.methods);

    var inheritance := "";
    var related := FindInheritance(d.relationships, cls.id);
    if related.Some? {
      var parent := FindClass(d.classes, d.relationships[related.value].target);
      inheritance := if parent.Some? then " extends " + Render(ClassNameOf(d.classes[parent.value].name)) else "";
    }

    var n := NormalizedClass(className, visibility, attributes, methods);
    assert n == Normalize(cls);
    assert inheritance == InheritanceOf(d, cls);
    code' := code;
    if language == "Java" {
      code' := code' + JavaCode(n, inheritance);
    } else if language == "PHP" {
      code' := code' + PhpCode(n, inheritance);
    } else if language == "Python" {
      code' := code' + PythonCode(n, inheritance);
    }
  }

  /**
   * `generateCodeFromDiagram`: visit every class in order, appending to
   * `code`, then `code.trim()`. The result is the specified text.
   */
  method GenerateCodeFromDiagram(d: DiagramData, language: string) returns (code: string)
    ensures code == Generated(d, language)
  {
    code := "";
    var i := 0;
    NothingVisited(d, language);
    while i < |d.classes|
      invariant i <= |d.classes|
      invariant code == ConcatAll(ClassTexts(d, language)[..i])
    {
      var code' := VisitClass(d, language, d.classes[i], code);
      VisitedPrefix(d, language, i, code, code');
      code := code';
      i := i + 1;
    }
    VisitedAll(d, language, code);
    code := Trim(code);
  }

  /** Before any class is visited, the accumulator is empty. */
  lemma NothingVisited(d: DiagramData, language: string)
    ensures ConcatAll(ClassTexts(d, language)[..0]) == ""
  {
    var ts := ClassTexts(d, language);
    assert ts[..0] == [];
  }

  /** After visiting class `i`, the accumulator holds the texts of classes `0..i`. */
  lemma VisitedPrefix(d: DiagramData, language: string, i: nat, code: string, code': string)
    requires i < |d.classes|
    requires code == ConcatAll(ClassTexts(d, language)[..i])
    requires code' == code + EmitClass(d, language, d.classes[i])
    ensures code' == ConcatAll(ClassTexts(d, language)[..i + 1])
  {
    var ts := ClassTexts(d, language);
    assert ts[i] == EmitClass(d, language, d.classes[i]);
    ConcatAllStep(ts, i);
  }

  /** Once every class is visited, trimming the accumulator gives the specified text. */
  lemma VisitedAll(d: DiagramData, language: string, code: string)
    requires code == ConcatAll(ClassTexts(d, language)[..|d.classes|])
    ensures Trim(code) == Generated(d, language)
  {
    ConcatAllWhole(ClassTexts(d, language), |d.classes|);
  }

  /**
   * Classes are emitted in input order: the untrimmed text of the diagram is
   * the text of the classes before position `m` followed by the text of the
   * classes from `m` on.
   */
  lemma ClassOrder(d: DiagramData, language: string, m: nat)
    requires m <= |d.classes|
    ensures var ts := ClassTexts(d, language);
      ConcatAll(ts) == ConcatAll(ts[..m]) + ConcatAll(ts[m..])
  {
    var ts := ClassTexts(d, language);
    assert ts == ts[..m] + ts[m..];
    ConcatAllAppend(ts[..m], ts[m..]);
  }

  /** A diagram with one class generates that class's text, trimmed. */
  lemma SingleClass(d: DiagramData, language: string)
    requires |d.classes| == 1
    ensures Generated(d, language) == Trim(EmitClass(d, language, d.classes[0]))
  {
    var ts := ClassTexts(d, language);
    ConcatAllStep(ts, 0);
    ConcatAllWhole(ts, 1);
    assert ConcatAll(ts[..0]) == "";
    assert "" + ts[0] == ts[0];
  }

  /** A language without an emitter, such as `"Rust"` or `"java"`, yields the empty string and no error. */
  lemma UnsupportedLanguage(d: DiagramData)
    ensures Generated(d, "Rust") == ""
    ensures Generated(d, "java") == ""
  {
    GeneratedSpec(d, "Rust");
    GeneratedSpec(d, "java");
  }

  /**
   * A class `"<visibility> <Name>"` whose first inheritance relationship
   * points at the one class with that id, `"<parentVisibility> <Parent>"`, is declared with `extends Parent` in
   * Java, with `extends  extends Parent` in PHP (the inheritance string is
   * prefixed a second time) and with `( extends Parent)` in Python.
   */
  lemma {:induction false} ParentClauses(d: DiagramData, cls: ClassNode, i: nat, parent: ClassNode,
                                         visibility: string, name: string,
                                         parentVisibility: string, parentName: string)
    requires cls.name == visibility + " " + name
    requires visibility != [] && Lacks(visibility, ' ') && Lacks(name, ' ')
    requires i < |d.relationships| && d.relationships[i] == Relationship("Inheritance", cls.id, parent.id)
    requires forall k :: 0 <= k < i ==> !InheritsFrom(d.relationships[k], cls.id)
    requires parent in d.classes && forall k :: 0 <= k < |d.classes| && d.classes[k].id == parent.id ==> d.classes[k] == parent
    requires parent.name == parentVisibility + " " + parentName
    requires parentVisibility != [] && Lacks(parentVisibility, ' ') && Lacks(parentName, ' ')
    ensures JavaDeclaration(Normalize(cls), InheritanceOf(d, cls))
      == visibility + " class " + name + (" extends " + parentName) + " {"
    ensures PhpDeclaration(Normalize(cls), InheritanceOf(d, cls))
      == visibility + " class " + name + (" extends " + (" extends " + parentName)) + " {"
    ensures PythonDeclaration(Normalize(cls), InheritanceOf(d, cls))
      == "class " + name + ("(" + (" extends " + parentName) + ")") + ":"
  {
    InheritanceResolved(d, cls, i, parent, parentVisibility, parentName);
    NameRoundTrip(visibility, name);
    NormalizeName(cls);
    var inheritance := InheritanceOf(d, cls);
    assert inheritance == " extends " + parentName && inheritance != "";
    var n := Normalize(cls);
    assert n.visibility == visibility && Render(n.className) == name;
  }

  /** Without a parent, none of the three declarations has an inheritance clause. */
  lemma {:induction false} NoParentClauses(d: DiagramData, cls: ClassNode, visibility: string, name: string)
    requires cls.name == visibility + " " + name
    requires visibility != [] && Lacks(visibility, ' ') && Lacks(name, ' ')
    requires forall k :: 0 <= k < |d.relationships| ==> !InheritsFrom(d.relationships[k], cls.id)
    ensures JavaDeclaration(Normalize(cls), InheritanceOf(d, cls)) == visibility + " class " + name + " {"
    ensures PhpDeclaration(Normalize(cls), InheritanceOf(d, cls)) == visibility + " class " + name + " {"
    ensures PythonDeclaration(Normalize(cls), InheritanceOf(d, cls)) == "class " + name + ":"
  {
    NoInheritance(d, cls);
    NameRoundTrip(visibility, name);
    NormalizeName(cls);
    var n := Normalize(cls);
    assert n.visibility == visibility && Render(n.className) == name;
    assert name + "" == name;
  }
}
