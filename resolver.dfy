/**
 * Finding a class's parent: the first `Inheritance` relationship leaving the
 * class, and the class its target id names.
 */
module Resolver {
  import opened Wrappers
  import opened JsString
  import opened Model
  import opened Normalizer

  /** The test `relationships.find` applies: `rel.type === "Inheritance" && rel.source === id`. */
  predicate InheritsFrom(rel: Relationship, id: string) {
    rel.kind == "Inheritance" && rel.source == id
  }

  /**
   * The position of the relationship `relationships.find` returns: the first
   * inheritance relationship whose source is `id`, `None` for `undefined`.
   */
  function FindInheritance(rels: seq<Relationship>, id: string): (r: Option<nat>)
    ensures r.None? <==> forall k :: 0 <= k < |rels| ==> !InheritsFrom(rels[k], id)
    ensures r.Some? ==>
      r.value < |rels| && InheritsFrom(rels[r.value], id)
      && forall k :: 0 <= k < r.value ==> !InheritsFrom(rels[k], id)
  {
    if rels == [] then None
    else if InheritsFrom(rels[0], id) then Some(0)
    else
      match FindInheritance(rels[1..], id)
      case None => None
      case Some(i) => Some(i + 1)
  }

  /** The position of the class `classes.find((c) => c.id === id)` returns. */
  function FindClass(classes: seq<ClassNode>, id: string): (r: Option<nat>)
    ensures r.None? <==> forall k :: 0 <= k < |classes| ==> classes[k].id != id
    ensures r.Some? ==>
      r.value < |classes| && classes[r.value].id == id
      && forall k :: 0 <= k < r.value ==> classes[k].id != id
  {
    if classes == [] then None
    else if classes[0].id == id then Some(0)
    else
      match FindClass(classes[1..], id)
      case None => None
      case Some(i) => Some(i + 1)
  }

  /**
   * The parent class of `cls`: the class named by the target of the first
   * inheritance relationship leaving `cls`, if that relationship exists and
   * its target is one of the diagram's classes.
   */
  function ParentOf(d: DiagramData, cls: ClassNode): (p: Option<ClassNode>)
    ensures p.Some? ==> exists i, j ::
      0 <= i < |d.relationships| && 0 <= j < |d.classes| && p.value == d.classes[j]
      && FindInheritance(d.relationships, cls.id) == Some(i)
      && FindClass(d.classes, d.relationships[i].target) == Some(j)
    ensures p.None? <==>
      FindInheritance(d.relationships, cls.id).None?
      || FindClass(d.classes, d.relationships[FindInheritance(d.relationships, cls.id).value].target).None?
  {
    match FindInheritance(d.relationships, cls.id)
    case None => None
    case Some(i) =>
      match FindClass(d.classes, d.relationships[i].target)
      case None => None
      case Some(j) => Some(d.classes[j])
  }

  /**
   * The `inheritance` string: `" extends "` and the parent's second name
   * token (`undefined` when the parent's name has no space), or `""` when
   * there is no parent. It is empty exactly when there is no parent.
   */
  function InheritanceOf(d: DiagramData, cls: ClassNode): (s: string)
    ensures s == "" <==> ParentOf(d, cls).None?
    ensures ParentOf(d, cls).Some? ==>
      s == " extends " + Render(ClassNameOf(ParentOf(d, cls).value.name))
  {
    match ParentOf(d, cls)
    case None => ""
    case Some(parent) => " extends " + Render(ClassNameOf(parent.name))
  }

  /**
   * When several inheritance relationships leave the same class, the first in
   * input order decides the parent and everything after it is ignored.
   */
  lemma {:induction false} FirstInheritanceWins(before: seq<Relationship>, rel: Relationship, after: seq<Relationship>, id: string)
    requires forall k :: 0 <= k < |before| ==> !InheritsFrom(before[k], id)
    requires InheritsFrom(rel, id)
    ensures FindInheritance(before + [rel] + after, id) == Some(|before|)
    decreases |before|
  {
    var rels := before + [rel] + after;
    if before == [] {
      assert rels[0] == rel;
    } else {
      assert rels[0] == before[0];
      assert rels[1..] == before[1..] + [rel] + after;
      FirstInheritanceWins(before[1..], rel, after, id);
    }
  }

  /**
   * An inheritance relationship whose target names no class gives no
   * parent and an empty inheritance string; nothing fails.
   */
  lemma DanglingTarget(d: DiagramData, cls: ClassNode, i: nat)
    requires FindInheritance(d.relationships, cls.id) == Some(i)
    requires forall k :: 0 <= k < |d.classes| ==> d.classes[k].id != d.relationships[i].target
    ensures InheritanceOf(d, cls) == ""
  {
  }

  /**
   * A class whose first inheritance relationship targets a class named
   * `"<visibility> <ClassName>"`, the only class with that id, extends
   * `ClassName`.
   */
  lemma InheritanceResolved(d: DiagramData, cls: ClassNode, i: nat, parent: ClassNode, visibility: string, parentName: string)
    requires i < |d.relationships| && d.relationships[i] == Relationship("Inheritance", cls.id, parent.id)
    requires forall k :: 0 <= k < i ==> !InheritsFrom(d.relationships[k], cls.id)
    requires parent in d.classes && forall k :: 0 <= k < |d.classes| && d.classes[k].id == parent.id ==> d.classes[k] == parent
    requires parent.name == visibility + " " + parentName
    requires visibility != [] && Lacks(visibility, ' ') && Lacks(parentName, ' ')
    ensures InheritanceOf(d, cls) == " extends " + parentName
  {
    var rels := d.relationships;
    assert rels == rels[..i] + [rels[i]] + rels[i + 1..];
    FirstInheritanceWins(rels[..i], rels[i], rels[i + 1..], cls.id);
    NameRoundTrip(visibility, parentName);
  }

  /** Without an inheritance relationship leaving the class, there is no parent clause. */
  lemma NoInheritance(d: DiagramData, cls: ClassNode)
    requires forall k :: 0 <= k < |d.relationships| ==> !InheritsFrom(d.relationships[k], cls.id)
    ensures InheritanceOf(d, cls) == ""
  {
  }
}
