/**
 * The bookkeeping and text conversions of the HTML documentation writer
 * (`JolieDocWriter`): the name lists that `addType` and `addLinkedType` keep
 * free of duplicates, the cardinality suffix, the indentation string, and the
 * text `writeType` produces for a type and its subtypes.
 */
module JolieDoc {

  import opened Wrappers
  import opened Strings

  /** A cardinality `[min, max]` of a type or subtype. */
  datatype Range = Range(min: int, max: int)

  /** `Constants.RANGE_ONE_TO_ONE`. */
  const RangeOneToOne: Range := Range(1, 1)
  /** `Integer.MAX_VALUE`, the unbounded maximum of `*`. */
  const MaxInt: int := 0x7fff_ffff

  /** A type definition: an inline type with its native type and subtypes, or
      a `TypeDefinitionLink` that names the type it stands for. */
  datatype TypeDefinition =
    | Inline(id: string, cardinality: Range, nativeType: Option<string>, untypedSubTypes: bool,
             subTypes: seq<TypeDefinition>)
    | Link(id: string, cardinality: Range, linkedTypeName: string)

  /** Only the name of an interface or a port matters to the bookkeeping. */
  datatype InterfaceDefinition = InterfaceDefinition(name: string)
  datatype PortInfo = PortInfo(id: string)

  // ---------------------------------------------------------------------------
  // getCardinalityString

  /** `getCardinalityString`: nothing for exactly one, `?` for an optional
      element, `*` for any number, `[min,max]` otherwise. */
  function CardinalityString(r: Range): (s: string)
    ensures s == "" <==> r == RangeOneToOne
    ensures s == "?" <==> r == Range(0, 1)
    ensures s == "*" <==> r == Range(0, MaxInt)
    ensures r != RangeOneToOne && r != Range(0, 1) && r != Range(0, MaxInt)
      ==> s == "[" + IntToString(r.min) + "," + IntToString(r.max) + "]"
  {
    if r == RangeOneToOne then ""
    else if r.min == 0 && r.max == 1 then "?"
    else if r.min == 0 && r.max == MaxInt then "*"
    else "[" + IntToString(r.min) + "," + IntToString(r.max) + "]"
  }

  /** No comma in a decimal rendering. */
  predicate CommaFree(s: string)
  {
    forall k :: 0 <= k < |s| ==> s[k] != ','
  }

  /** Position of the first comma, `|s|` when there is none. */
  function FirstComma(s: string): (i: nat)
    ensures i <= |s|
  {
    if s == [] then 0 else if s[0] == ',' then 0 else 1 + FirstComma(s[1..])
  }

  lemma {:induction false} FirstCommaAfter(x: string, y: string)
    requires CommaFree(x)
    ensures FirstComma(x + "," + y) == |x|
  {
    if x != [] {
      assert (x + "," + y)[1..] == x[1..] + "," + y;
      FirstCommaAfter(x[1..], y);
    }
  }

  /** The comma splits `x + "," + y` uniquely when `x` has none. */
  lemma SplitAtComma(x1: string, y1: string, x2: string, y2: string)
    requires CommaFree(x1) && CommaFree(x2)
    requires x1 + "," + y1 == x2 + "," + y2
    ensures x1 == x2 && y1 == y2
  {
    var s := x1 + "," + y1;
    FirstCommaAfter(x1, y1);
    FirstCommaAfter(x2, y2);
    assert x1 == s[..|x1|] == x2;
    assert y1 == s[|x1| + 1..] == y2;
  }

  /** Different cardinalities are written differently, so the suffix can be
      read back. */
  lemma CardinalityInjective(a: Range, b: Range)
    requires CardinalityString(a) == CardinalityString(b)
    ensures a == b
  {
    if a != RangeOneToOne && a != Range(0, 1) && a != Range(0, MaxInt) {
      BracketInner(IntToString(a.min), IntToString(a.max));
      BracketInner(IntToString(b.min), IntToString(b.max));
      SplitAtComma(IntToString(a.min), IntToString(a.max), IntToString(b.min), IntToString(b.max));
      IntToStringInjective(a.min, b.min);
      IntToStringInjective(a.max, b.max);
    }
  }

  /** What the brackets enclose. */
  lemma BracketInner(x: string, y: string)
    ensures var s := "[" + x + "," + y + "]";
      s[1..|s| - 1] == x + "," + y
  {
  }

  // ---------------------------------------------------------------------------
  // indent

  const Nbsp: string := "&nbsp;"
  /** The unit `writeType` indents with: written without the semicolon. */
  const NbspUnterminated: string := "&nbsp"

  /** `builder` with `n` copies of `unit` appended, one per turn of a loop. */
  method AppendRepeated(builder: string, unit: string, n: int) returns (r: string)
    ensures r == builder + Repeat(unit, n)
  {
    r := builder;
    var x := 0;
    while x < n
      invariant 0 <= x && (x <= n || x == 0)
      invariant r == builder + Repeat(unit, x)
    {
      r := r + unit;
      x := x + 1;
    }
  }

  /** `indent(n)`: `n` copies of the non-breaking space entity. */
  method Indent(n: int) returns (indentation: string)
    ensures indentation == Repeat(Nbsp, n)
    ensures |indentation| == if n <= 0 then 0 else 6 * n
  {
    indentation := AppendRepeated("", Nbsp, n);
    assert |Nbsp| == 6;
  }

  /** Copy `k` of an indentation sits at `6 * k`. */
  lemma IndentCopies(n: int, k: int)
    requires 0 <= k < n
    ensures Repeat(Nbsp, n)[6 * k .. 6 * k + 6] == Nbsp
  {
    RepeatChunk(Nbsp, n, k);
    assert |Nbsp| == 6;
  }

  // ---------------------------------------------------------------------------
  // writeType

  /** The text before the colon: an indented `.id` with its cardinality for a
      subtype, `type id` for a type at the top. */
  function Heading(t: TypeDefinition, subType: bool, level: int): string
  {
    if subType then Repeat(NbspUnterminated, level) + "." + t.id + CardinalityString(t.cardinality)
    else "type " + t.id
  }

  /** `nativeTypeToString`. */
  function NativeName(nt: Option<string>): string
  {
    if nt.Some? then nt.value else ""
  }

  /** The native type name in its `native` span. */
  function NativeSpan(nt: Option<string>): string
  {
    NativeOpen + NativeName(nt) + NativeClose
  }

  const OpenSubTypes: string := "&nbsp;{ <BR>"
  const CloseSubTypes: string := "}"
  const LineBreak: string := "<br>"
  const AnchorOpen: string := "<a href=\"#"
  const AnchorMiddle: string := "\">"
  const AnchorClose: string := "</a>"
  const NativeOpen: string := "<span class=\"native\">"
  const NativeClose: string := "</span>"
  const Undefined: string := "undefined"
  const Colon: string := ":"

  /** The text `writeType(type, subType, level)` returns. */
  function TypeText(t: TypeDefinition, subType: bool, level: int): string
    decreases t, 1
  {
    Heading(t, subType, level) + Colon + BodyText(t, level)
  }

  /** What follows the colon. */
  function BodyText(t: TypeDefinition, level: int): string
    decreases t, 0
  {
    match t
    case Link(_, _, name) => AnchorOpen + name + AnchorMiddle + name + AnchorClose
    case Inline(_, _, nt, untyped, subTypes) =>
      if untyped then Undefined
      else
        NativeSpan(nt) + if subTypes == [] then "" else NestedText(t, level)
  }

  /** The braces around the subtypes, which are indented by four more. */
  function NestedText(t: TypeDefinition, level: int): string
    requires t.Inline?
    decreases t, 0, |t.subTypes| + 1
  {
    OpenSubTypes + ChildrenText(t, |t.subTypes|, level + 4) + Closing(level)
  }

  /** The first `n` subtypes of `t`, each followed by a line break. */
  function ChildrenText(t: TypeDefinition, n: nat, level: int): string
    requires t.Inline? && n <= |t.subTypes|
    decreases t, 0, n
  {
    if n == 0 then ""
    else ChildrenText(t, n - 1, level) + TypeText(t.subTypes[n - 1], true, level) + LineBreak
  }

  /** `writeType`: the loops of the Java method, proved to produce `TypeText`. */
  method WriteType(t: TypeDefinition, subType: bool, level: int) returns (s: string)
    ensures s == TypeText(t, subType, level)
    decreases t, 1
  {
    var heading := WriteHeading(t, subType, level);
    var body := WriteBody(t, level);
    s := heading + Colon + body;
  }

  /** The part of `writeType` before the colon. */
  method WriteHeading(t: TypeDefinition, subType: bool, level: int) returns (s: string)
    ensures s == Heading(t, subType, level)
  {
    if subType {
      s := AppendRepeated("", NbspUnterminated, level);
      assert s == Repeat(NbspUnterminated, level);
      s := s + "." + t.id + CardinalityString(t.cardinality);
    } else {
      s := "type " + t.id;
    }
  }

  /** The part of `writeType` after the colon. */
  method WriteBody(t: TypeDefinition, level: int) returns (s: string)
    ensures s == BodyText(t, level)
    decreases t, 0
  {
    if t.Link? {
      s := AnchorOpen + t.linkedTypeName + AnchorMiddle + t.linkedTypeName + AnchorClose;
    } else if t.untypedSubTypes {
      s := Undefined;
    } else {
      s := NativeSpan(t.nativeType);
      if t.subTypes != [] {
        var nested := WriteNested(t, level);
        s := s + nested;
      } else {
        assert s == NativeSpan(t.nativeType) + "";
      }
    }
  }

  /** The subtypes part of `writeType`, from the opening brace on. */
  method WriteNested(t: TypeDefinition, level: int) returns (s: string)
    requires t.Inline?
    ensures s == NestedText(t, level)
    decreases t, 0, |t.subTypes| + 1
  {
    var children := WriteSubTypes(t, level + 4);
    s := OpenSubTypes + children;
    s := AppendRepeated(s, NbspUnterminated, level);
    s := s + CloseSubTypes;
  }

  /** The loop of `writeType` over the subtypes. */
  method WriteSubTypes(t: TypeDefinition, level: int) returns (s: string)
    requires t.Inline?
    ensures s == ChildrenText(t, |t.subTypes|, level)
    decreases t, 0, |t.subTypes|
  {
    s := "";
    for i := 0 to |t.subTypes|
      invariant s == ChildrenText(t, i, level)
    {
      var child := WriteType(t.subTypes[i], true, level);
      s := s + (child + LineBreak);
    }
  }

  /** A subtype line starts with `level` copies of `&nbsp`, then a dot, the id,
      the cardinality suffix and a colon. */
  lemma SubTypeLine(t: TypeDefinition, level: int)
    ensures var p := Repeat(NbspUnterminated, level) + "." + t.id + CardinalityString(t.cardinality) + Colon;
      |p| <= |TypeText(t, true, level)| && TypeText(t, true, level)[..|p|] == p
  {
  }

  /** A top-level line starts with `type`, the id and a colon. */
  lemma TopLevelLine(t: TypeDefinition, level: int)
    ensures var p := "type " + t.id + Colon;
      |p| <= |TypeText(t, false, level)| && TypeText(t, false, level)[..|p|] == p
  {
  }

  /** The line of every subtype, indented four levels deeper and followed by a
      line break, occurs in the text of its parent. */
  lemma {:induction false} ChildrenAppear(t: TypeDefinition, n: nat, level: int, i: nat)
    requires t.Inline? && i < n <= |t.subTypes|
    ensures Contains(ChildrenText(t, n, level), TypeText(t.subTypes[i], true, level) + LineBreak)
    decreases n
  {
    var prev := ChildrenText(t, n - 1, level);
    var last := TypeText(t.subTypes[n - 1], true, level) + LineBreak;
    var line := TypeText(t.subTypes[i], true, level) + LineBreak;
    if i < n - 1 {
      ChildrenAppear(t, n - 1, level, i);
    }
    AppendKeepsContains(prev, last, line);
    assert ChildrenText(t, n, level) == prev + last;
  }

  /** Appending keeps an occurrence, and the appended part occurs itself. */
  lemma AppendKeepsContains(prev: string, last: string, pat: string)
    requires Contains(prev, pat) || pat == last
    ensures Contains(prev + last, pat)
  {
    if pat == last {
      assert OccursAt(last, last, 0);
      ContainsIff(last, last);
      ContainsInMiddle(prev, last, "", pat);
      assert prev + last + "" == prev + last;
    } else {
      ContainsInMiddle("", prev, last, pat);
      assert "" + prev + last == prev + last;
    }
  }

  /** The text before the list of subtypes. */
  function Opening(t: TypeDefinition, subType: bool, level: int): string
    requires t.Inline?
  {
    Heading(t, subType, level) + Colon + NativeSpan(t.nativeType) + OpenSubTypes
  }

  /** The text after the list of subtypes: the closing brace at `level`. */
  function Closing(level: int): string
  {
    Repeat(NbspUnterminated, level) + CloseSubTypes
  }

  /** A type with subtypes lists each of them at `level + 4` between braces, the
      closing one indented to `level`. */
  lemma NestedLayout(t: TypeDefinition, subType: bool, level: int)
    requires t.Inline? && !t.untypedSubTypes && t.subTypes != []
    ensures TypeText(t, subType, level) == Opening(t, subType, level) + ChildrenText(t, |t.subTypes|, level + 4) + Closing(level)
  {
    NestedBody(t, level);
    Regroup(Heading(t, subType, level) + Colon, NativeSpan(t.nativeType), OpenSubTypes, ChildrenText(t, |t.subTypes|, level + 4), Closing(level));
  }

  /** One unfolding of `BodyText` for a type with subtypes. */
  lemma NestedBody(t: TypeDefinition, level: int)
    requires t.Inline? && !t.untypedSubTypes && t.subTypes != []
    ensures BodyText(t, level)
         == NativeSpan(t.nativeType) + (OpenSubTypes + ChildrenText(t, |t.subTypes|, level + 4) + Closing(level))
  {
  }

  lemma Regroup(a: string, b: string, c: string, d: string, e: string)
    ensures a + (b + (c + d + e)) == (a + b + c) + d + e
  {
  }

  /** A type with subtypes lists each of them at `level + 4`, each followed by a
      line break. */
  lemma SubTypesNested(t: TypeDefinition, subType: bool, level: int, i: nat)
    requires t.Inline? && !t.untypedSubTypes && i < |t.subTypes|
    ensures Contains(TypeText(t, subType, level), TypeText(t.subTypes[i], true, level + 4) + LineBreak)
  {
    NestedLayout(t, subType, level);
    ChildrenAppear(t, |t.subTypes|, level + 4, i);
    ContainsInMiddle(Opening(t, subType, level), ChildrenText(t, |t.subTypes|, level + 4), Closing(level),
      TypeText(t.subTypes[i], true, level + 4) + LineBreak);
  }

  /** A type with subtypes closes their list with a brace indented to `level`. */
  lemma SubTypesClosed(t: TypeDefinition, subType: bool, level: int)
    requires t.Inline? && !t.untypedSubTypes && t.subTypes != []
    ensures EndsWith(TypeText(t, subType, level), Closing(level))
  {
    NestedLayout(t, subType, level);
    var whole := TypeText(t, subType, level);
    assert whole[|whole| - |Closing(level)|..] == Closing(level);
  }

  lemma ContainsInMiddle(a: string, b: string, c: string, pat: string)
    requires Contains(b, pat)
    ensures Contains(a + b + c, pat)
  {
    ContainsIff(b, pat);
    var k :| OccursAt(b, pat, k);
    var w := a + b + c;
    assert w[|a| + k..|a| + k + |pat|] == b[k..k + |pat|];
    assert OccursAt(w, pat, |a| + k);
    ContainsIff(w, pat);
  }

  /** A link shows the linked name as an anchor. */
  lemma LinkBody(t: TypeDefinition, subType: bool, level: int)
    requires t.Link?
    ensures EndsWith(TypeText(t, subType, level), AnchorOpen + t.linkedTypeName + AnchorMiddle + t.linkedTypeName + AnchorClose)
  {
    var tail := BodyText(t, level);
    var whole := TypeText(t, subType, level);
    assert whole[|whole| - |tail|..] == tail;
  }

  /** An untyped type shows `undefined` right after the colon. */
  lemma UntypedBody(t: TypeDefinition, subType: bool, level: int)
    requires t.Inline? && t.untypedSubTypes
    ensures EndsWith(TypeText(t, subType, level), Colon + Undefined)
  {
    var whole := TypeText(t, subType, level);
    assert BodyText(t, level) == Undefined;
    assert whole == Heading(t, subType, level) + (Colon + Undefined);
    assert whole[|whole| - |Colon + Undefined|..] == Colon + Undefined;
  }

  /** A native type without subtypes ends with the name of its native type. */
  lemma NativeLeafBody(t: TypeDefinition, subType: bool, level: int)
    requires t.Inline? && !t.untypedSubTypes && t.subTypes == []
    ensures EndsWith(TypeText(t, subType, level), NativeSpan(t.nativeType))
  {
    var tail := BodyText(t, level);
    assert tail == NativeSpan(t.nativeType) + "";
    var whole := TypeText(t, subType, level);
    assert whole[|whole| - |tail|..] == tail;
  }

  // ---------------------------------------------------------------------------
  // The writer's lists

  predicate NoDuplicates(s: seq<string>)
  {
    forall i, j :: 0 <= i < j < |s| ==> s[i] != s[j]
  }

  /** The names list has no duplicates, holds each recorded type's id and each
      recorded link's target, and is exactly as long as the two lists together,
      so it holds nothing else; recorded types are neither native nor
      `undefined`. */
  ghost predicate Recorded(natives: set<string>, names: seq<string>, types: seq<TypeDefinition>, links: seq<TypeDefinition>)
  {
    && NoDuplicates(names)
    && (forall k :: 0 <= k < |links| ==> links[k].Link?)
    && |names| == |types| + |links|
    && (forall k :: 0 <= k < |types| ==> types[k].id in names)
    && (forall k :: 0 <= k < |links| ==> links[k].linkedTypeName in names)
    && (forall k :: 0 <= k < |types| ==> types[k].id !in natives && types[k].id != "undefined")
  }

  lemma NoDuplicatesSnoc(names: seq<string>, x: string)
    requires NoDuplicates(names) && x !in names
    ensures NoDuplicates(names + [x])
  {
  }

  /** Recording a type with a new id keeps `Recorded`. */
  lemma RecordType(natives: set<string>, names: seq<string>, types: seq<TypeDefinition>, links: seq<TypeDefinition>, t: TypeDefinition)
    requires Recorded(natives, names, types, links)
    requires t.id !in natives && t.id != "undefined" && t.id !in names
    ensures Recorded(natives, names + [t.id], types + [t], links)
  {
    NoDuplicatesSnoc(names, t.id);
  }

  /** Recording a link with a new target keeps `Recorded`. */
  lemma RecordLink(natives: set<string>, names: seq<string>, types: seq<TypeDefinition>, links: seq<TypeDefinition>, l: TypeDefinition)
    requires Recorded(natives, names, types, links)
    requires l.Link? && l.linkedTypeName !in names
    ensures Recorded(natives, names + [l.linkedTypeName], types, links + [l])
  {
    NoDuplicatesSnoc(names, l.linkedTypeName);
  }

  class JolieDocWriter {
    /** `NativeType.isNative`: the ids of the native types. */
    const nativeTypeIds: set<string>
    var port: Option<PortInfo>
    /** `typeDefintionNameVector`: ids of recorded types and names of linked types. */
    var typeNames: seq<string>
    /** `typeDefinitonVector`. */
    var typeDefinitions: seq<TypeDefinition>
    /** `typeDefinitionLinkVector`. */
    var typeLinks: seq<TypeDefinition>
    /** `typeDefintionLinkNameVector`: consulted by `addType`, never written. */
    var linkNames: seq<string>
    /** `interfaceDefintionVector`. */
    var interfaces: seq<InterfaceDefinition>

    ghost predicate Valid()
      reads this
    {
      linkNames == [] && Recorded(nativeTypeIds, typeNames, typeDefinitions, typeLinks)
    }

    constructor (nativeTypeIds: set<string>)
      ensures Valid()
      ensures this.nativeTypeIds == nativeTypeIds && port == None
      ensures typeNames == [] && typeDefinitions == [] && typeLinks == [] && interfaces == []
    {
      this.nativeTypeIds := nativeTypeIds;
      port := None;
      typeNames := [];
      typeDefinitions := [];
      typeLinks := [];
      linkNames := [];
      interfaces := [];
    }

    /** `addPort`. */
    method AddPort(p: PortInfo)
      modifies this`port
      ensures port == Some(p)
    {
      port := Some(p);
    }

    /** `addInterface`: appended, so the interfaces stay in the order added. */
    method AddInterface(i: InterfaceDefinition)
      modifies this`interfaces
      ensures interfaces == old(interfaces) + [i]
    {
      interfaces := interfaces + [i];
    }

    /** The three conditions under which `addType` records `t`. */
    predicate Admits(t: TypeDefinition)
      reads this
    {
      t.id !in nativeTypeIds && t.id != "undefined" && t.id !in linkNames && t.id !in typeNames
    }

    /** `addType`: a type that is not native, not `undefined` and not named
        yet is recorded together with its id; any other is ignored. */
    method AddType(t: TypeDefinition)
      requires Valid()
      modifies this`typeDefinitions, this`typeNames
      ensures Valid()
      ensures old(Admits(t)) ==> typeDefinitions == old(typeDefinitions) + [t] && typeNames == old(typeNames) + [t.id]
      ensures !old(Admits(t)) ==> typeDefinitions == old(typeDefinitions) && typeNames == old(typeNames)
    {
      if t.id !in nativeTypeIds && t.id != "undefined" {
        if t.id !in linkNames && t.id !in typeNames {
          RecordType(nativeTypeIds, typeNames, typeDefinitions, typeLinks, t);
          typeDefinitions := typeDefinitions + [t];
          typeNames := typeNames + [t.id];
        }
      }
    }

    /** `addLinkedType`: a link whose target is not named yet is recorded
        together with that name; any other is ignored. */
    method AddLinkedType(l: TypeDefinition)
      requires Valid() && l.Link?
      modifies this`typeLinks, this`typeNames
      ensures Valid()
      ensures old(l.linkedTypeName !in typeNames) ==> typeLinks == old(typeLinks) + [l] && typeNames == old(typeNames) + [l.linkedTypeName]
      ensures old(l.linkedTypeName in typeNames) ==> typeLinks == old(typeLinks) && typeNames == old(typeNames)
    {
      if l.linkedTypeName !in typeNames {
        RecordLink(nativeTypeIds, typeNames, typeDefinitions, typeLinks, l);
        typeLinks := typeLinks + [l];
        typeNames := typeNames + [l.linkedTypeName];
      }
    }
  }
}
