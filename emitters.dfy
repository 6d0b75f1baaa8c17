/**
 * The three emitters: each turns one normalized class and its inheritance
 * string into source text with template strings and `map`/`join` over the
 * attributes and methods, in their order.
 */
module Emitters {
  import opened Wrappers
  import opened JsString
  import opened Model

  /** Neither the name nor the interpolated type of `a` breaks a line. */
  predicate OnOneLine(a: Attribute) {
    Lacks(a.name, '\n') && Lacks(Render(a.typ), '\n')
  }

  /** Every attribute of `attrs` is `OnOneLine`. */
  predicate AllOnOneLine(attrs: seq<Attribute>) {
    forall k :: 0 <= k < |attrs| ==> OnOneLine(attrs[k])
  }

  /** A string with a character that is not white space is not all white space. */
  lemma Visible(s: string, k: nat)
    requires k < |s| && !IsWhiteSpace(s[k])
    ensures !AllWhiteSpace(s)
  {
  }

  /** A concatenation of three pieces that lack `c` lacks `c`. */
  lemma Lacks3(a: string, b: string, c: string, ch: char)
    requires Lacks(a, ch) && Lacks(b, ch) && Lacks(c, ch)
    ensures Lacks(a + b + c, ch)
  {
    LacksAppend(a, b, ch);
    LacksAppend(a + b, c, ch);
  }

  // ---------------------------------------------------------------- Java

  /** One field declaration: `  private ${attr.type} ${attr.name};`. */
  function JavaField(a: Attribute): (r: string) {
    "  private " + Render(a.typ) + " " + a.name + ";"
  }

  /** One getter and one setter, named after the capitalized attribute name. */
  function JavaAccessors(a: Attribute): (r: string) {
    "\n  public " + Render(a.typ) + " get" + Capitalize(a.name) + "() {\n    return " + a.name + ";\n  }\n\n"
    + "  public void set" + Capitalize(a.name) + "(" + Render(a.typ) + " " + a.name + ") {\n    this."
    + a.name + " = " + a.name + ";\n  }\n"
  }

  /** One constructor parameter: `${attr.type} ${attr.name}`. */
  function JavaParam(a: Attribute): (r: string) {
    Render(a.typ) + " " + a.name
  }

  /** One constructor assignment: `    this.${attr.name} = ${attr.name};`. */
  function JavaAssignment(a: Attribute): (r: string) {
    "    this." + a.name + " = " + a.name + ";"
  }

  /** One `"name=" + name` pair of `toString`. */
  function JavaPair(a: Attribute): (r: string) {
    "\"" + a.name + "=\" + " + a.name
  }

  /** One method stub with a `// TODO: Implement` body. */
  function JavaStub(m: string): (r: string) {
    "  public void " + m + "() {\n    // TODO: Implement\n  }"
  }

  /** The class declaration line, without its line breaks. */
  function JavaDeclaration(n: NormalizedClass, inheritance: string): (r: string) {
    n.visibility + " class " + Render(n.className) + inheritance + " {"
  }

  /**
   * `generateJavaCode`: a blank line, the declaration line, then fields,
   * constructor, accessors, `toString` and method stubs, and the closing
   * brace on a line of its own.
   */
  function JavaCode(n: NormalizedClass, inheritance: string): (r: string)
    ensures var head := "\n" + JavaDeclaration(n, inheritance) + "\n";
      |head| <= |r| && r[..|head|] == head
    ensures |r| >= 3 && r[|r| - 3..] == "\n}\n"
    ensures r[0] == '\n' && !AllWhiteSpace(r)
  {
    var name := Render(n.className);
    var head := "\n" + JavaDeclaration(n, inheritance) + "\n";
    var tail := "\n}\n";
    var middle :=
      MapJoin(JavaField, n.attributes, "\n")
      + "\n\n  public " + name + "(" + MapJoin(JavaParam, n.attributes, ", ") + ") {\n"
      + MapJoin(JavaAssignment, n.attributes, "\n")
      + "\n  }\n\n"
      + MapJoin(JavaAccessors, n.attributes, "\n")
      + "\n\n  @Override\n  public String toString() {\n    return \"" + name + "{\" + "
      + MapJoin(JavaPair, n.attributes, " + \", \" + ")
      + " + \"}\";\n  }\n\n"
      + MapJoin(JavaStub, n.methods, "\n");
    var r := head + middle + tail;
    assert r[..|head|] == head && r[|r| - 3..] == tail;
    Visible(r, |r| - 2);
    r
  }

  /**
   * The Java text of a class, section by section. An attribute appended at
   * the end of the list appends its field, its parameter, its assignment,
   * its accessors and its `toString` pair at the end of each section, so
   * every section lists the attributes in input order.
   */
  lemma {:induction false} JavaAttributeOrder(attrs: seq<Attribute>, a: Attribute)
    requires |attrs| >= 1
    ensures MapJoin(JavaField, attrs + [a], "\n") == MapJoin(JavaField, attrs, "\n") + "\n" + JavaField(a)
    ensures MapJoin(JavaParam, attrs + [a], ", ") == MapJoin(JavaParam, attrs, ", ") + ", " + JavaParam(a)
    ensures MapJoin(JavaAssignment, attrs + [a], "\n") == MapJoin(JavaAssignment, attrs, "\n") + "\n" + JavaAssignment(a)
    ensures MapJoin(JavaAccessors, attrs + [a], "\n") == MapJoin(JavaAccessors, attrs, "\n") + "\n" + JavaAccessors(a)
    ensures MapJoin(JavaPair, attrs + [a], " + \", \" + ") == MapJoin(JavaPair, attrs, " + \", \" + ") + " + \", \" + " + JavaPair(a)
  {
    MapJoinAppend(JavaField, attrs, a, "\n");
    MapJoinAppend(JavaParam, attrs, a, ", ");
    MapJoinAppend(JavaAssignment, attrs, a, "\n");
    MapJoinAppend(JavaAccessors, attrs, a, "\n");
    MapJoinAppend(JavaPair, attrs, a, " + \", \" + ");
  }

  /** A method appended at the end of the list appends its stub at the end. */
  lemma {:induction false} JavaMethodOrder(methods: seq<string>, m: string)
    requires |methods| >= 1
    ensures MapJoin(JavaStub, methods + [m], "\n") == MapJoin(JavaStub, methods, "\n") + "\n" + JavaStub(m)
  {
    MapJoinAppend(JavaStub, methods, m, "\n");
  }

  /**
   * The field block is one line per attribute, in order, the k-th reading
   * `  private <type> <name>;`; the constructor body likewise one
   * `    this.<name> = <name>;` line per attribute.
   */
  lemma {:induction false} JavaFieldLines(attrs: seq<Attribute>)
    requires |attrs| >= 1 && AllOnOneLine(attrs)
    ensures var lines := Split(MapJoin(JavaField, attrs, "\n"), '\n');
      |lines| == |attrs|
      && forall k :: 0 <= k < |attrs| ==> lines[k] == "  private " + Render(attrs[k].typ) + " " + attrs[k].name + ";"
    ensures var lines := Split(MapJoin(JavaAssignment, attrs, "\n"), '\n');
      |lines| == |attrs|
      && forall k :: 0 <= k < |attrs| ==> lines[k] == "    this." + attrs[k].name + " = " + attrs[k].name + ";"
  {
    forall k | 0 <= k < |attrs| ensures Lacks(JavaField(attrs[k]), '\n') && Lacks(JavaAssignment(attrs[k]), '\n') {
      var a := attrs[k];
      Lacks3("  private ", Render(a.typ), " ", '\n');
      Lacks3("  private " + Render(a.typ) + " ", a.name, ";", '\n');
      Lacks3("    this.", a.name, " = ", '\n');
      Lacks3("    this." + a.name + " = ", a.name, ";", '\n');
    }
    MapJoinPieces(JavaField, attrs, '\n');
    MapJoinPieces(JavaAssignment, attrs, '\n');
  }

  /**
   * A class with no attributes and no methods still has its declaration,
   * a constructor without parameters and a `toString` rendering `Name{`
   * and `}` around an empty operand.
   */
  lemma JavaEmptyClass(visibility: string, name: string, inheritance: string)
    ensures JavaCode(NormalizedClass(Some(name), visibility, [], []), inheritance)
      == "\n" + visibility + " class " + name + inheritance + " {" + "\n"
      + ("\n\n  public " + name + "(" + ") {\n"
         + "\n  }\n\n"
         + "\n\n  @Override\n  public String toString() {\n    return \"" + name + "{\" + " + " + \"}\";\n  }\n\n")
      + "\n}\n"
  {
    MapJoinEmpty(JavaField, "\n");
    MapJoinEmpty(JavaParam, ", ");
    MapJoinEmpty(JavaAssignment, "\n");
    MapJoinEmpty(JavaAccessors, "\n");
    MapJoinEmpty(JavaPair, " + \", \" + ");
    MapJoinEmpty(JavaStub, "\n");
  }

  // ---------------------------------------------------------------- PHP

  /** One field declaration: `  private $${attr.name};`. */
  function PhpField(a: Attribute): (r: string) {
    "  private $" + a.name + ";"
  }

  /** One getter and one setter over `$this->name`. */
  function PhpAccessors(a: Attribute): (r: string) {
    "\n  public function get" + Capitalize(a.name) + "() {\n    return $this->" + a.name + ";\n  }\n\n"
    + "  public function set" + Capitalize(a.name) + "($" + a.name + ") {\n    $this->"
    + a.name + " = $" + a.name + ";\n  }\n"
  }

  /** One constructor parameter: `$${attr.name}`. */
  function PhpParam(a: Attribute): (r: string) {
    "$" + a.name
  }

  /** One constructor assignment: `    $this->${attr.name} = $${attr.name};`. */
  function PhpAssignment(a: Attribute): (r: string) {
    "    $this->" + a.name + " = $" + a.name + ";"
  }

  /** One `"$name=" . $this->name` pair of `__toString`. */
  function PhpPair(a: Attribute): (r: string) {
    "\"$" + a.name + "=\" . $this->" + a.name
  }

  /** One method stub with a `// TODO: Implement` body. */
  function PhpStub(m: string): (r: string) {
    "  public function " + m + "() {\n    // TODO: Implement\n  }"
  }

  /**
   * The class declaration line: a non-empty inheritance string is put after
   * a further `" extends "`, an empty one leaves nothing.
   */
  function PhpDeclaration(n: NormalizedClass, inheritance: string): (r: string) {
    n.visibility + " class " + Render(n.className) + (if inheritance != "" then " extends " + inheritance else "") + " {"
  }

  /**
   * `generatePHPCode`: a blank line, the declaration line, then fields,
   * constructor, accessors, `__toString` and method stubs, and the closing
   * brace on a line of its own.
   */
  function PhpCode(n: NormalizedClass, inheritance: string): (r: string)
    ensures var head := "\n" + PhpDeclaration(n, inheritance) + "\n";
      |head| <= |r| && r[..|head|] == head
    ensures |r| >= 3 && r[|r| - 3..] == "\n}\n"
    ensures r[0] == '\n' && !AllWhiteSpace(r)
  {
    var name := Render(n.className);
    var head := "\n" + PhpDeclaration(n, inheritance) + "\n";
    var tail := "\n}\n";
    var middle :=
      MapJoin(PhpField, n.attributes, "\n")
      + "\n\n  public function __construct(" + MapJoin(PhpParam, n.attributes, ", ") + ") {\n"
      + MapJoin(PhpAssignment, n.attributes, "\n")
      + "\n  }\n\n"
      + MapJoin(PhpAccessors, n.attributes, "\n")
      + "\n\n  public function __toString() {\n    return \"" + name + "{\" . "
      + MapJoin(PhpPair, n.attributes, " . \", \" . ")
      + " . \"}\";\n  }\n\n"
      + MapJoin(PhpStub, n.methods, "\n");
    var r := head + middle + tail;
    assert r[..|head|] == head && r[|r| - 3..] == tail;
    Visible(r, |r| - 2);
    r
  }

  /** Appending an attribute appends its piece at the end of every PHP section. */
  lemma {:induction false} PhpAttributeOrder(attrs: seq<Attribute>, a: Attribute)
    requires |attrs| >= 1
    ensures MapJoin(PhpField, attrs + [a], "\n") == MapJoin(PhpField, attrs, "\n") + "\n" + PhpField(a)
    ensures MapJoin(PhpParam, attrs + [a], ", ") == MapJoin(PhpParam, attrs, ", ") + ", " + PhpParam(a)
    ensures MapJoin(PhpAssignment, attrs + [a], "\n") == MapJoin(PhpAssignment, attrs, "\n") + "\n" + PhpAssignment(a)
    ensures MapJoin(PhpAccessors, attrs + [a], "\n") == MapJoin(PhpAccessors, attrs, "\n") + "\n" + PhpAccessors(a)
    ensures MapJoin(PhpPair, attrs + [a], " . \", \" . ") == MapJoin(PhpPair, attrs, " . \", \" . ") + " . \", \" . " + PhpPair(a)
  {
    MapJoinAppend(PhpField, attrs, a, "\n");
    MapJoinAppend(PhpParam, attrs, a, ", ");
    MapJoinAppend(PhpAssignment, attrs, a, "\n");
    MapJoinAppend(PhpAccessors, attrs, a, "\n");
    MapJoinAppend(PhpPair, attrs, a, " . \", \" . ");
  }

  /** A method appended at the end of the list appends its stub at the end. */
  lemma {:induction false} PhpMethodOrder(methods: seq<string>, m: string)
    requires |methods| >= 1
    ensures MapJoin(PhpStub, methods + [m], "\n") == MapJoin(PhpStub, methods, "\n") + "\n" + PhpStub(m)
  {
    MapJoinAppend(PhpStub, methods, m, "\n");
  }

  /**
   * The PHP field block is one `  private $<name>;` line per attribute, in
   * order, and the constructor body one `    $this-><name> = $<name>;` line
   * per attribute.
   */
  lemma {:induction false} PhpFieldLines(attrs: seq<Attribute>)
    requires |attrs| >= 1 && AllOnOneLine(attrs)
    ensures var lines := Split(MapJoin(PhpField, attrs, "\n"), '\n');
      |lines| == |attrs| && forall k :: 0 <= k < |attrs| ==> lines[k] == "  private $" + attrs[k].name + ";"
    ensures var lines := Split(MapJoin(PhpAssignment, attrs, "\n"), '\n');
      |lines| == |attrs|
      && forall k :: 0 <= k < |attrs| ==> lines[k] == "    $this->" + attrs[k].name + " = $" + attrs[k].name + ";"
  {
    forall k | 0 <= k < |attrs| ensures Lacks(PhpField(attrs[k]), '\n') && Lacks(PhpAssignment(attrs[k]), '\n') {
      var a := attrs[k];
      Lacks3("  private $", a.name, ";", '\n');
      Lacks3("    $this->", a.name, " = $", '\n');
      Lacks3("    $this->" + a.name + " = $", a.name, ";", '\n');
    }
    MapJoinPieces(PhpField, attrs, '\n');
    MapJoinPieces(PhpAssignment, attrs, '\n');
  }

  // ---------------------------------------------------------------- Python

  /** One `__init__` parameter: the attribute name. */
  function PythonParam(a: Attribute): (r: string) {
    a.name
  }

  /** One `__init__` assignment: `    self.${attr.name} = ${attr.name}`. */
  function PythonAssignment(a: Attribute): (r: string) {
    "    self." + a.name + " = " + a.name
  }

  /** One method stub: a `# TODO: Implement` comment, `pass` and a line break. */
  function PythonStub(m: string): (r: string) {
    "  def " + m + "(self):\n    # TODO: Implement\n    pass\n"
  }

  /**
   * The class declaration line: a non-empty inheritance string is put in
   * parentheses as it is, an empty one leaves nothing. The visibility is
   * not used.
   */
  function PythonDeclaration(n: NormalizedClass, inheritance: string): (r: string) {
    "class " + Render(n.className) + (if inheritance != "" then "(" + inheritance + ")" else "") + ":"
  }

  /**
   * `generatePythonCode`: a blank line, the declaration line, then
   * `__init__`, `__str__` and the method stubs, ending with a line break.
   * The template writes `{toStringBody}` without a `$`, so `__str__` returns
   * that literal text for every class and the attribute list computed for
   * it is never emitted.
   */
  function PythonCode(n: NormalizedClass, inheritance: string): (r: string)
    ensures var head := "\n" + PythonDeclaration(n, inheritance) + "\n";
      |head| <= |r| && r[..|head|] == head
    ensures r[|r| - 1] == '\n'
    ensures r[0] == '\n' && !AllWhiteSpace(r)
  {
    var head := "\n" + PythonDeclaration(n, inheritance) + "\n";
    var middle :=
      "  def __init__(self, " + MapJoin(PythonParam, n.attributes, ", ") + "):\n"
      + MapJoin(PythonAssignment, n.attributes, "\n")
      + "\n\n  def __str__(self):\n    return f\"" + Render(n.className) + "({toStringBody})\"\n\n"
      + MapJoin(PythonStub, n.methods, "\n");
    var r := head + middle + "\n";
    assert r[..|head|] == head && r[1] == 'c';
    Visible(r, 1);
    r
  }

  /** Appending an attribute appends its parameter and its assignment at the end of the `__init__` sections. */
  lemma {:induction false} PythonAttributeOrder(attrs: seq<Attribute>, a: Attribute)
    requires |attrs| >= 1
    ensures MapJoin(PythonParam, attrs + [a], ", ") == MapJoin(PythonParam, attrs, ", ") + ", " + a.name
    ensures MapJoin(PythonAssignment, attrs + [a], "\n") == MapJoin(PythonAssignment, attrs, "\n") + "\n" + PythonAssignment(a)
  {
    MapJoinAppend(PythonParam, attrs, a, ", ");
    MapJoinAppend(PythonAssignment, attrs, a, "\n");
  }

  /** A method appended at the end of the list appends its stub at the end. */
  lemma {:induction false} PythonMethodOrder(methods: seq<string>, m: string)
    requires |methods| >= 1
    ensures MapJoin(PythonStub, methods + [m], "\n") == MapJoin(PythonStub, methods, "\n") + "\n" + PythonStub(m)
  {
    MapJoinAppend(PythonStub, methods, m, "\n");
  }

  /** The `__init__` body is one `    self.<name> = <name>` line per attribute, in order. */
  lemma {:induction false} PythonInitLines(attrs: seq<Attribute>)
    requires |attrs| >= 1 && AllOnOneLine(attrs)
    ensures var lines := Split(MapJoin(PythonAssignment, attrs, "\n"), '\n');
      |lines| == |attrs|
      && forall k :: 0 <= k < |attrs| ==> lines[k] == "    self." + attrs[k].name + " = " + attrs[k].name
  {
    forall k | 0 <= k < |attrs| ensures Lacks(PythonAssignment(attrs[k]), '\n') {
      var a := attrs[k];
      Lacks3("    self.", a.name, " = ", '\n');
      LacksAppend("    self." + a.name + " = ", a.name, '\n');
    }
    MapJoinPieces(PythonAssignment, attrs, '\n');
  }

  /**
   * A class with one attribute and one method, such as `Animal` with
   * `name: String` and `speak`: `__init__` takes the attribute and stores
   * it, `__str__` returns the literal `{toStringBody}` inside the class's
   * f-string, and the method gets a stub.
   */
  lemma PythonOneAttribute(name: string, visibility: string, a: Attribute, m: string)
    ensures PythonCode(NormalizedClass(Some(name), visibility, [a], [m]), "")
      == "\n" + ("class " + name + ":") + "\n"
      + ("  def __init__(self, " + a.name + "):\n"
         + ("    self." + a.name + " = " + a.name)
         + "\n\n  def __str__(self):\n    return f\"" + name + "({toStringBody})\"\n\n"
         + ("  def " + m + "(self):\n    # TODO: Implement\n    pass\n"))
      + "\n"
  {
    MapJoinSingle(PythonParam, a, ", ");
    MapJoinSingle(PythonAssignment, a, "\n");
    MapJoinSingle(PythonStub, m, "\n");
  }
}
