/**
 * Splitting a class's raw name into visibility and class name, and parsing its
 * raw attribute and method strings.
 */
module Normalizer {
  import opened Wrappers
  import opened JsString
  import opened Model

  /**
   * `cls.name.split(" ")[0] || "public"`: the text before the first space,
   * or `"public"` when that text is empty.
   */
  function VisibilityOf(raw: string): (v: string)
    ensures v != [] && Lacks(v, ' ')
    ensures (raw == [] || raw[0] == ' ') ==> v == "public"
    ensures !(raw == [] || raw[0] == ' ') ==>
      |v| <= |raw| && raw[..|v|] == v && (|v| == |raw| || raw[|v|] == ' ')
  {
    var first := Split(raw, ' ')[0];
    SplitFirstPiece(raw, ' ');
    if first == "" then "public" else first
  }

  /**
   * `cls.name.split(" ")[1]`: the second space-separated token, `undefined`
   * when the name holds no space at all.
   */
  function ClassNameOf(raw: string): (n: Option<string>)
    ensures n.None? <==> Lacks(raw, ' ')
    ensures n.Some? ==> Lacks(n.value, ' ')
  {
    var tokens := Split(raw, ' ');
    SplitPieces(raw, ' ');
    if |tokens| > 1 then Some(tokens[1]) else None
  }

  /**
   * A name with a space is `<first> <second><rest>` where neither token holds
   * a space and `rest` is empty or starts at the next space: the visibility is
   * the first token (`"public"` if it is empty) and the class name the second.
   */
  lemma NameTokens(first: string, second: string, rest: string)
    requires Lacks(first, ' ') && Lacks(second, ' ')
    requires rest == [] || rest[0] == ' '
    ensures VisibilityOf(first + " " + second + rest) == if first == [] then "public" else first
    ensures ClassNameOf(first + " " + second + rest) == Some(second)
  {
    var raw := first + " " + second + rest;
    assert raw == first + [' '] + (second + rest);
    SplitAt(first, ' ', second + rest);
    if rest == [] {
      assert second + rest == second;
      assert Split(second, ' ') == [second];
    } else {
      assert second + rest == second + [' '] + rest[1..];
      SplitAt(second, ' ', rest[1..]);
    }
  }

  /** A name without a space is all visibility: the class name is `undefined`. */
  lemma NameWithoutSpace(raw: string)
    requires Lacks(raw, ' ')
    ensures VisibilityOf(raw) == if raw == [] then "public" else raw
    ensures ClassNameOf(raw) == None
  {
    assert Split(raw, ' ') == [raw];
  }

  /** A name built as `"<visibility> <ClassName>"` splits back into its two parts. */
  lemma NameRoundTrip(visibility: string, className: string)
    requires visibility != [] && Lacks(visibility, ' ') && Lacks(className, ' ')
    ensures VisibilityOf(visibility + " " + className) == visibility
    ensures ClassNameOf(visibility + " " + className) == Some(className)
  {
    assert visibility + " " + className == visibility + " " + className + [];
    NameTokens(visibility, className, []);
  }

  /** A colon is present after `replace("+", "")` exactly when it was before. */
  lemma RemovePlusKeepsColons(raw: string)
    ensures Lacks(RemoveFirst(raw, '+'), ':') <==> Lacks(raw, ':')
  {
    if !Lacks(raw, '+') {
      var a, b := FirstOccurrence(raw, '+');
      RemoveFirstAt(a, '+', b);
      LacksAppend(a, b, ':');
      LacksAppend(a, ['+'], ':');
      LacksAppend(a + ['+'], b, ':');
    }
  }

  /** Trimming never introduces a character. */
  lemma TrimKeepsAbsent(s: string, c: char)
    requires Lacks(s, c)
    ensures Lacks(Trim(s), c)
  {
    var t := TrimStart(s);
    assert Lacks(t, c) by {
      TrimStartSpec(s);
      LacksSlice(s, |s| - |t|, |s|, c);
      assert s[|s| - |t|..|s|] == t;
    }
    var r := TrimEnd(t);
    TrimEndSpec(t);
    LacksSlice(t, 0, |r|, c);
    assert t[0..|r|] == r;
  }

  /**
   * One attribute string: `attr.replace("+", "").split(":")`, each piece
   * trimmed, destructured into `[name, type]`. The type is `undefined`
   * exactly when the string holds no colon; both parts come out trimmed and
   * free of colons.
   */
  function ParseAttribute(raw: string): (a: Attribute)
    ensures a.typ.None? <==> Lacks(raw, ':')
    ensures Trimmed(a.name) && Lacks(a.name, ':')
    ensures a.typ.Some? ==> Trimmed(a.typ.value) && Lacks(a.typ.value, ':')
  {
    var parts := Split(RemoveFirst(raw, '+'), ':');
    RemovePlusKeepsColons(raw);
    SplitPieces(RemoveFirst(raw, '+'), ':');
    TrimKeepsAbsent(parts[0], ':');
    if |parts| > 1 then
      TrimKeepsAbsent(parts[1], ':');
      Attribute(Trim(parts[0]), Some(Trim(parts[1])))
    else
      Attribute(Trim(parts[0]), None)
  }

  /**
   * Once the first `+` is gone, the name is the trimmed text before the first
   * colon and the type the trimmed text between the first and second colon;
   * anything after a second colon is dropped.
   */
  lemma ParseAttributeFields(raw: string, name: string, typ: string, rest: string)
    requires RemoveFirst(raw, '+') == name + ":" + typ + rest
    requires Lacks(name, ':') && Lacks(typ, ':')
    requires rest == [] || rest[0] == ':'
    ensures ParseAttribute(raw) == Attribute(Trim(name), Some(Trim(typ)))
  {
    assert name + ":" + typ + rest == name + [':'] + (typ + rest);
    SplitAt(name, ':', typ + rest);
    if rest != [] {
      assert typ + rest == typ + [':'] + rest[1..];
      SplitAt(typ, ':', rest[1..]);
    } else {
      assert typ + rest == typ;
    }
  }

  /** Without a colon the whole string, less its first `+`, is the trimmed name. */
  lemma ParseAttributeUntyped(raw: string)
    requires Lacks(raw, ':')
    ensures ParseAttribute(raw) == Attribute(Trim(RemoveFirst(raw, '+')), None)
  {
    RemovePlusKeepsColons(raw);
  }

  /** An attribute written in the diagram's `"+name: Type"` form parses back to its parts. */
  lemma ParseAttributeRoundTrip(name: string, typ: string)
    requires Trimmed(name) && Trimmed(typ) && Lacks(name, ':') && Lacks(typ, ':')
    ensures ParseAttribute("+" + name + ": " + typ) == Attribute(name, Some(typ))
  {
    var raw := "+" + name + ": " + typ;
    assert raw == [] + ['+'] + (name + ": " + typ);
    RemoveFirstAt([], '+', name + ": " + typ);
    assert name + ": " + typ == name + ":" + (" " + typ) + [];
    ParseAttributeFields(raw, name, " " + typ, []);
    TrimTrimmed(name);
    TrimLeadingSpace(typ);
  }

  /** One method string: `method.replace("+", "").trim()`. */
  function ParseMethod(raw: string): (m: string)
    ensures Trimmed(m)
    ensures Lacks(raw, '+') ==> m == Trim(raw)
  {
    Trim(RemoveFirst(raw, '+'))
  }

  /** A method written in the diagram's `"+name"` form parses back to its name. */
  lemma ParseMethodRoundTrip(name: string)
    requires Trimmed(name)
    ensures ParseMethod("+" + name) == name
  {
    assert "+" + name == [] + ['+'] + name;
    RemoveFirstAt([], '+', name);
    TrimTrimmed(name);
  }

  /**
   * Everything the generator derives from one class before emitting it;
   * attributes and methods keep their number and their order.
   */
  function Normalize(cls: ClassNode): (n: NormalizedClass)
    ensures n.className.None? <==> Lacks(cls.name, ' ')
    ensures |n.attributes| == |cls.attributes|
    ensures forall i :: 0 <= i < |cls.attributes| ==> n.attributes[i] == ParseAttribute(cls.attributes[i])
    ensures |n.methods| == |cls.methods|
    ensures forall i :: 0 <= i < |cls.methods| ==> n.methods[i] == ParseMethod(cls.methods[i])
  {
    var attributes := MapSeq(ParseAttribute, cls.attributes);
    var methods := MapSeq(ParseMethod, cls.methods);
    NormalizedClass(ClassNameOf(cls.name), VisibilityOf(cls.name), attributes, methods)
  }

  /** The normalized class carries the name's class-name token and visibility. */
  lemma NormalizeName(cls: ClassNode)
    ensures Normalize(cls).className == ClassNameOf(cls.name)
    ensures Normalize(cls).visibility == VisibilityOf(cls.name)
  {
  }
}
