/** The help printer of spock/backend/help.py: a class docstring is split at
    its `Attributes:` line, the first paragraph above it becomes the class
    help, each attribute's description is found by a regex on the lines below
    it, and the attribute table is padded into columns. Regex case folding is
    ASCII only (`Strs.LowerChar`). Printing is not modelled: `AttributeLines`
    computes the lines of a class's table, and `HandleHelpMain` keeps only
    whether each table could be built and the classes still to describe. */
module Help {
  import opened Results
  import opened Strs
  import opened Dicts

  /** `a` and `b` are equal under `(?i)`. */
  predicate SameLetter(a: char, b: char) {
    LowerChar(a) == LowerChar(b)
  }

  /** The literal `lit` matches `s` case-insensitively at position `i`. */
  predicate MatchesAt(s: string, i: nat, lit: string) {
    i + |lit| <= |s| && forall j :: 0 <= j < |lit| ==> SameLetter(s[i + j], lit[j])
  }

  /** `Attribute?s?:` matches at position `i`: `attribut`, an optional `e`, an
      optional `s`, then a colon. */
  predicate TagAt(s: string, i: nat) {
    MatchesAt(s, i, "attribut:") || MatchesAt(s, i, "attribute:")
    || MatchesAt(s, i, "attributs:") || MatchesAt(s, i, "attributes:")
  }

  /** `re.search(r"(?i)Attribute?s?:", s) is not None` */
  predicate HasAttrTag(s: string) {
    exists i: nat :: i < |s| && TagAt(s, i)
  }

  /** The search itself, from position `from` on. */
  function TagFrom(s: string, from: nat): (r: bool)
    ensures r <==> exists i: nat :: from <= i < |s| && TagAt(s, i)
    decreases |s| - from
  {
    if from >= |s| then false
    else if TagAt(s, from) then true
    else
      var r := TagFrom(s, from + 1);
      assert forall i: nat :: from <= i < |s| && TagAt(s, i) ==> i == from || from + 1 <= i;
      r
  }

  /** The index of the first line holding the tag, or -1. */
  function FirstTagged(lines: seq<string>): (r: int)
    ensures -1 <= r < |lines|
    ensures r == -1 <==> forall i :: 0 <= i < |lines| ==> !HasAttrTag(lines[i])
    ensures r >= 0 ==> HasAttrTag(lines[r]) && forall i :: 0 <= i < r ==> !HasAttrTag(lines[i])
    decreases |lines|
  {
    if lines == [] then -1
    else if HasAttrTag(lines[0]) then 0
    else
      var k := FirstTagged(lines[1..]);
      assert forall i :: 1 <= i < |lines| ==> lines[i] == lines[1..][i - 1];
      if k == -1 then -1 else k + 1
  }

  /** `find_attribute_idx(newline_split_docs)` */
  method FindAttributeIdx(lines: seq<string>) returns (r: int)
    ensures r == FirstTagged(lines)
  {
    for i := 0 to |lines|
      invariant forall j :: 0 <= j < i ==> !HasAttrTag(lines[j])
    {
      if TagFrom(lines[i], 0) {
        return i;
      }
    }
    return -1;
  }

  /** The docstring split on newlines, each line stripped; no docstring gives
      no lines. */
  function DocLines(doc: Option<string>): (r: seq<string>)
    ensures doc.None? ==> r == []
  {
    match doc
    case None => []
    case Some(s) =>
      var parts := Split(s, '\n');
      seq(|parts|, i requires 0 <= i < |parts| => Strip(parts[i]))
  }

  /** The head lines before the `Attributes:` line and the attribute section
      from it on: the only split whose section is empty or starts at a tagged
      line while no head line is tagged. */
  function SplitAt(lines: seq<string>): (r: (seq<string>, seq<string>))
    ensures r.0 + r.1 == lines
    ensures forall i :: 0 <= i < |r.0| ==> !HasAttrTag(r.0[i])
    ensures r.1 == [] || HasAttrTag(r.1[0])
  {
    var idx := FirstTagged(lines);
    if idx != -1 then
      assert lines[..idx] + lines[idx..] == lines;
      (lines[..idx], lines[idx..])
    else (lines, [])
  }

  /** The end of the first paragraph: the first blank line after the first
      line, or the end. */
  function FirstBreak(head: seq<string>): (k: nat)
    ensures k <= |head|
    ensures head != [] ==> k >= 1
    ensures forall j :: 1 <= j < k ==> |head[j]| > 0
    ensures k < |head| ==> |head[k]| == 0
  {
    if head == [] then 0 else BreakFrom(head, 1)
  }

  function BreakFrom(head: seq<string>, j: nat): (k: nat)
    requires 1 <= j <= |head|
    ensures j <= k <= |head|
    ensures forall i :: j <= i < k ==> |head[i]| > 0
    ensures k < |head| ==> |head[k]| == 0
    decreases |head| - j
  {
    if j == |head| || |head[j]| == 0 then j else BreakFrom(head, j + 1)
  }

  /** The lines concatenated, each preceded by a space. */
  function Spaced(xs: seq<string>): string
    decreases |xs|
  {
    if xs == [] then "" else Spaced(xs[..|xs| - 1]) + " " + xs[|xs| - 1]
  }

  /** The stripped paragraph marked with `-- `, or nothing when it is empty. */
  function Mark(d: string): string {
    if |d| > 0 then "-- " + d else ""
  }

  /** `class_doc`: the first paragraph of the head joined with spaces,
      stripped, and marked with `-- ` when there is any. */
  function ClassDoc(head: seq<string>): (r: string)
    ensures r == "" || (|r| > 3 && r[..3] == "-- " && !IsSpace(r[3]) && !IsSpace(r[|r| - 1]))
  {
    Mark(Strip(Spaced(head[..FirstBreak(head)])))
  }

  lemma SpacedStep(xs: seq<string>, i: nat)
    requires i < |xs|
    ensures Spaced(xs[..i + 1]) == Spaced(xs[..i]) + " " + xs[i]
  {
    assert xs[..i + 1][..i] == xs[..i];
  }

  /** Whatever follows the first blank line is not part of the class help. */
  lemma ClassDocStopsAtBlank(block: seq<string>, rest: seq<string>)
    requires block != [] && forall j :: 1 <= j < |block| ==> |block[j]| > 0
    ensures ClassDoc(block + [""] + rest) == ClassDoc(block)
  {
    var head := block + [""] + rest;
    assert |head[|block|]| == 0;
    assert forall j :: 1 <= j < |block| ==> head[j] == block[j];
    assert FirstBreak(head) == |block|;
    assert head[..|block|] == block;
    assert FirstBreak(block) == |block|;
    assert block[..|block|] == block;
  }

  datatype Docs = Docs(classDoc: string, attrDocs: seq<string>)

  /** The loop of `split_docs` that builds `class_doc`, and its clean-up. */
  method ClassDocLoop(head: seq<string>) returns (classDoc: string)
    ensures classDoc == ClassDoc(head)
  {
    ghost var k := FirstBreak(head);
    var acc := "";
    var i := 0;
    while i < |head|
      invariant 0 <= i <= k
      invariant 0 < i < |head| ==> |head[i]| > 0
      invariant acc == Spaced(head[..i])
    {
      SpacedStep(head, i);
      acc := acc + " " + head[i];
      if i + 1 != |head| && |head[i + 1]| == 0 {
        i := i + 1;
        break;
      }
      i := i + 1;
    }
    assert i == k;
    classDoc := Strip(acc);
    if |classDoc| > 0 {
      classDoc := "-- " + classDoc;
    }
  }

  /** What `split_docs` returns for a docstring. */
  function DocsOf(doc: Option<string>): Docs {
    var parts := SplitAt(DocLines(doc));
    Docs(ClassDoc(parts.0), parts.1)
  }

  /** `split_docs(obj)` on the object's docstring. */
  method SplitDocs(doc: Option<string>) returns (r: Docs)
    ensures r == DocsOf(doc)
  {
    var lines := DocLines(doc);
    var idx := FindAttributeIdx(lines);
    var head := if idx != -1 then lines[..idx] else lines;
    var attrDocs := if idx != -1 then lines[idx..] else [];
    var classDoc := ClassDocLoop(head);
    return Docs(classDoc, attrDocs);
  }

  /** No docstring: no class help and no attribute lines. */
  lemma SplitDocsNone()
    ensures ClassDoc(SplitAt(DocLines(None)).0) == "" && SplitAt(DocLines(None)).1 == []
  {
    assert Spaced([]) == "";
  }

  // ---------------------------------------------------------------------------
  // `match_attribute_docs`

  /** The tag of attribute `name` ends at `k` in `doc`: `k` is one past the
      name, or one past the name without its last letter, and the line starts
      with those letters, case-insensitively, followed by a colon at `k - 1`. */
  predicate TagEndsAt(name: string, doc: string, k: nat)
  {
    (k == |name| + 1 || k == |name|) && 1 <= k <= |doc| && doc[k - 1] == Colon
    && MatchesAt(doc, 0, name[..k - 1])
  }

  const Colon: char := ':'

  /** Where the case-insensitive search for the attribute's name, an optional
      last letter and a colon at the start of a line ends: after the name and a
      colon, or after the name without its last letter and a colon; the
      greedy optional letter tries the longer match first. The name is an
      identifier, so it holds no regex metacharacter and is not empty. */
  function NameTagEnd(name: string, doc: string): (r: Option<nat>)
    requires name != []
    ensures r.Some? ==> TagEndsAt(name, doc, r.value)
    ensures r.Some? && r.value == |name| ==> !TagEndsAt(name, doc, |name| + 1)
    ensures r.None? ==> !TagEndsAt(name, doc, |name| + 1) && !TagEndsAt(name, doc, |name|)
  {
    var n := |name|;
    if MatchesAt(doc, 0, name) && n < |doc| && doc[n] == ':' then
      assert name[..n] == name;
      Some(n + 1)
    else if MatchesAt(doc, 0, name[..n - 1]) && n - 1 < |doc| && doc[n - 1] == ':' then Some(n)
    else None
  }

  /** The index of the last line the attribute's regex matches, or -1. */
  function LastMatch(name: string, docs: seq<string>): (r: int)
    requires name != []
    ensures -1 <= r < |docs|
    ensures r == -1 <==> forall i :: 0 <= i < |docs| ==> NameTagEnd(name, docs[i]).None?
    ensures r >= 0 ==> NameTagEnd(name, docs[r]).Some?
                       && forall j :: r < j < |docs| ==> NameTagEnd(name, docs[j]).None?
    decreases |docs|
  {
    if docs == [] then -1
    else
      var n := |docs| - 1;
      if NameTagEnd(name, docs[n]).Some? then n
      else
        assert forall i :: 0 <= i < n ==> docs[..n][i] == docs[i];
        LastMatch(name, docs[..n])
  }

  /** The text after the tag on a matching line, stripped. */
  function DescAt(name: string, doc: string): string
    requires name != [] && NameTagEnd(name, doc).Some?
  {
    Strip(doc[NameTagEnd(name, doc).value..])
  }

  /** The value the loop leaves in `a_str`: the description from the last
      matching line (the loop does not stop at the first), or None. */
  function FoundDesc(name: string, docs: seq<string>): Option<string>
    requires name != []
  {
    var k := LastMatch(name, docs);
    if k == -1 then None else Some(DescAt(name, docs[k]))
  }

  lemma FoundDescStep(name: string, docs: seq<string>, i: nat)
    requires name != [] && i < |docs|
    ensures FoundDesc(name, docs[..i + 1])
            == if NameTagEnd(name, docs[i]).Some? then Some(DescAt(name, docs[i])) else FoundDesc(name, docs[..i])
  {
    var pre := docs[..i + 1];
    assert pre[..i] == docs[..i];
    if NameTagEnd(name, docs[i]).None? {
      var k := LastMatch(name, docs[..i]);
      if k != -1 {
        assert pre[k] == docs[k];
      }
    }
  }

  /** What `match_attribute_docs` packs for one attribute. */
  datatype AttrInfo = AttrInfo(typ: string, desc: string, default: string, nameLen: nat, typeLen: nat)

  /** `"(default: " + repr(attr_default) + ")"`, or "" for `NOTHING`; the repr
      is given, and None stands for `NOTHING`. */
  function DefaultString(default: Option<string>): (r: string)
    ensures default.None? <==> r == ""
  {
    match default
    case None => ""
    case Some(d) => "(default: " + d + ")"
  }

  /** `match_attribute_docs(attr_name, attr_docs, attr_type_str, attr_default)`:
      the one entry of the returned dict. */
  method MatchAttributeDocs(name: string, docs: seq<string>, typeStr: string, default: Option<string>)
    returns (r: (string, AttrInfo))
    requires name != []
    ensures r.0 == name
    ensures r.1 == AttrInfo(typeStr, match FoundDesc(name, docs) case None => "" case Some(d) => d,
                            DefaultString(default), |name|, |typeStr|)
  {
    var aStr: Option<string> := None;
    for i := 0 to |docs|
      invariant aStr == FoundDesc(name, docs[..i])
    {
      FoundDescStep(name, docs, i);
      var m := NameTagEnd(name, docs[i]);
      if m.Some? {
        aStr := Some(Strip(docs[i][m.value..]));
      }
    }
    assert docs[..|docs|] == docs;
    var desc := if aStr.Some? then aStr.value else "";
    return (name, AttrInfo(typeStr, desc, DefaultString(default), |name|, |typeStr|));
  }

  // ---------------------------------------------------------------------------
  // `handle_attributes_print`

  /** `" " * n`, which is empty for a negative `n`. */
  function Spaces(n: int): (r: string)
    ensures |r| == if n <= 0 then 0 else n
    ensures forall i :: 0 <= i < |r| ==> r[i] == ' '
  {
    if n <= 0 then "" else seq(n, i => ' ')
  }

  /** `max(xs)` of a non-empty list. */
  function MaxOf(xs: seq<int>): (r: int)
    requires xs != []
    ensures r in xs && forall i :: 0 <= i < |xs| ==> xs[i] <= r
    decreases |xs|
  {
    if |xs| == 1 then xs[0]
    else
      var m := MaxOf(xs[1..]);
      assert forall i :: 1 <= i < |xs| ==> xs[i] == xs[1..][i - 1];
      if xs[0] >= m then xs[0] else m
  }

  function MaxNameLen(info: Dict<AttrInfo>): int
    requires info != []
  {
    MaxOf(seq(|info|, i requires 0 <= i < |info| => |info[i].0|))
  }

  function MaxTypeLen(info: Dict<AttrInfo>): int
    requires info != []
  {
    MaxOf(seq(|info|, i requires 0 <= i < |info| => info[i].1.typeLen as int))
  }

  /** One printed row of the attribute table. */
  function AttrLine(k: string, v: AttrInfo, maxName: int, maxType: int, maxIndent: int): string {
    "    " + k + Spaces(maxName - v.nameLen + maxIndent) + v.typ
    + Spaces(maxType - v.typeLen + maxIndent) + v.desc + " " + v.default
  }

  /** The rows `handle_attributes_print` prints, then the blank line; `max()`
      of no attributes raises ValueError. */
  function AttributeLines(info: Dict<AttrInfo>, maxIndent: int): (r: Result<seq<string>>)
    ensures r.Err? <==> info == []
    ensures r.Err? ==> r.exc == ValueError
    ensures r.Ok? ==> |r.value| == |info| + 1 && r.value[|info|] == ""
  {
    if info == [] then Err(ValueError)
    else
      var mn := MaxNameLen(info);
      var mt := MaxTypeLen(info);
      Ok(seq(|info|, i requires 0 <= i < |info| => AttrLine(info[i].0, info[i].1, mn, mt, maxIndent)) + [""])
  }

  /** The entries carry the lengths of their own name and type. */
  predicate Measured(info: Dict<AttrInfo>) {
    forall e :: e in info ==> e.1.nameLen == |e.0| && e.1.typeLen == |e.1.typ|
  }

  /** Row `l` shows name `k` from column 4, the type from column `c1` and the
      description and default from column `c2` to its end. */
  predicate Aligned(l: string, k: string, v: AttrInfo, c1: int, c2: int) {
    4 + |k| <= c1 && c1 + |v.typ| <= c2
    && |l| == c2 + |v.desc| + 1 + |v.default|
    && l[4..4 + |k|] == k
    && l[c1..c1 + |v.typ|] == v.typ
    && l[c2..] == v.desc + " " + v.default
  }

  lemma LineColumns(k: string, v: AttrInfo, mn: int, mt: int, mi: int)
    requires v.nameLen == |k| <= mn && v.typeLen == |v.typ| <= mt && mi >= 0
    ensures Aligned(AttrLine(k, v, mn, mt, mi), k, v, 4 + mn + mi, 4 + mn + mi + mt + mi)
  {
    var a := "    " + k + Spaces(mn - v.nameLen + mi);
    var b := Spaces(mt - v.typeLen + mi);
    var rest := v.desc + " " + v.default;
    var l := AttrLine(k, v, mn, mt, mi);
    assert l == a + v.typ + b + rest;
    assert |a| == 4 + mn + mi;
    assert |a + v.typ + b| == 4 + mn + mi + mt + mi;
    assert l == (a + v.typ + b) + rest;
    assert l[..|a|] == a;
    assert a[4..4 + |k|] == k;
    assert l[|a|..|a| + |v.typ|] == v.typ;
  }

  /** With a non-negative indent, the names, the types and the descriptions
      each start in the same column on every row. */
  lemma ColumnsAligned(info: Dict<AttrInfo>, maxIndent: int, i: int)
    requires info != [] && Measured(info) && maxIndent >= 0 && 0 <= i < |info|
    ensures var c1 := 4 + MaxNameLen(info) + maxIndent;
            Aligned(AttributeLines(info, maxIndent).value[i], info[i].0, info[i].1, c1, c1 + MaxTypeLen(info) + maxIndent)
  {
    EntryFits(info, i);
    LineAt(info, maxIndent, i);
    LineColumns(info[i].0, info[i].1, MaxNameLen(info), MaxTypeLen(info), maxIndent);
  }

  /** A measured entry's name and type are no longer than the longest ones. */
  lemma EntryFits(info: Dict<AttrInfo>, i: int)
    requires info != [] && Measured(info) && 0 <= i < |info|
    ensures info[i].1.nameLen == |info[i].0| <= MaxNameLen(info)
    ensures info[i].1.typeLen == |info[i].1.typ| <= MaxTypeLen(info)
  {
    var ns := seq(|info|, j requires 0 <= j < |info| => |info[j].0|);
    var ts := seq(|info|, j requires 0 <= j < |info| => info[j].1.typeLen as int);
    assert ns[i] == |info[i].0| && ts[i] == info[i].1.typeLen;
    assert info[i] in info;
  }

  lemma LineAt(info: Dict<AttrInfo>, maxIndent: int, i: int)
    requires info != [] && 0 <= i < |info|
    ensures AttributeLines(info, maxIndent).value[i]
            == AttrLine(info[i].0, info[i].1, MaxNameLen(info), MaxTypeLen(info), maxIndent)
  {
  }

  // ---------------------------------------------------------------------------
  // `get_type_string`

  /** What `get_type_string` reads of an attribute: `repr(metadata["type"])`,
      `metadata["base"]`, `type.__name__`, `str(type)`, and whether `optional`
      is in the metadata. */
  datatype TypeMeta = TypeMeta(typeRepr: Option<string>, base: Option<string>, typeName: Option<string>,
                               typeStr: string, optional: bool)

  /** The type text before any rewriting, by precedence. */
  function BaseTypeString(m: TypeMeta): string {
    if m.typeRepr.Some? then m.typeRepr.value
    else if m.base.Some? then m.base.value
    else if m.typeName.Some? then m.typeName.value
    else m.typeStr
  }

  /** The pattern `pat` matches at the start of `s`, a `.` standing for any
      character but a newline. */
  predicate DotMatch(s: string, pat: string) {
    |pat| <= |s| && forall j :: 0 <= j < |pat| ==> if pat[j] == '.' then s[j] != '\n' else s[j] == pat[j]
  }

  /** `re.sub(pat, "", s)` for a pattern whose only metacharacter is `.`:
      left to right, every match is removed and the scan goes on after it. */
  function SubDot(s: string, pat: string): (r: string)
    requires pat != []
    ensures |r| <= |s|
    decreases |s|
  {
    if DotMatch(s, pat) then SubDot(s[|pat|..], pat)
    else if s == [] then []
    else [s[0]] + SubDot(s[1..], pat)
  }

  /** A text in which the pattern matches nowhere is left as it is. */
  lemma {:induction false} SubDotNoMatch(s: string, pat: string)
    requires pat != [] && forall i :: 0 <= i <= |s| ==> !DotMatch(s[i..], pat)
    ensures SubDot(s, pat) == s
    decreases |s|
  {
    assert s[0..] == s;
    if s != [] {
      forall i | 0 <= i <= |s[1..]| ensures !DotMatch(s[1..][i..], pat) {
        assert s[1..][i..] == s[i + 1..];
      }
      SubDotNoMatch(s[1..], pat);
    }
  }

  /** A match at the front is removed. */
  lemma SubDotPrefix(p: string, s: string, pat: string)
    requires pat != [] && |p| == |pat| && DotMatch(p, pat)
    ensures SubDot(p + s, pat) == SubDot(s, pat)
  {
    assert DotMatch(p + s, pat) by {
      assert forall j :: 0 <= j < |pat| ==> (p + s)[j] == p[j];
    }
    assert (p + s)[|pat|..] == s;
  }

  /** The pattern built from a nested class `module.path.Name`: its module
      path followed by a dot, that is the name up to and including its last dot.
      A name without a dot gives the pattern `.` alone, which erases every
      character of the type text it is substituted in. */
  function ModulePattern(other: string): (r: string)
    ensures r != [] && r[|r| - 1] == '.'
    ensures '.' !in other ==> r == "."
    ensures '.' in other ==> |r| <= |other| && r == other[..|r|] && '.' !in other[|r|..]
  {
    var parts := Split(other, '.');
    JoinSplit(other, '.');
    if |parts| == 1 then "."
    else
      JoinSnoc(parts, '.');
      assert '.' in other by {
        assert other == Join(parts[..|parts| - 1], '.') + ['.'] + parts[|parts| - 1];
        assert other[|Join(parts[..|parts| - 1], '.')|] == '.';
      }
      var r := Join(parts[..|parts| - 1], '.') + ".";
      assert other == r + parts[|parts| - 1];
      assert other[|r|..] == parts[|parts| - 1];
      r
  }

  /** The module paths of the nested classes removed one after the other. */
  function StripModules(s: string, others: seq<string>): string
    decreases |others|
  {
    if others == [] then s
    else SubDot(StripModules(s, others[..|others| - 1]), ModulePattern(others[|others| - 1]))
  }

  /** The text `get_type_string(val, nested_others)` returns. */
  function TypeString(m: TypeMeta, others: seq<string>): (r: string)
    ensures m.optional ==> |r| >= 10 && r[..9] == "Optional[" && r[|r| - 1] == ']'
  {
    var s := StripModules(SubDot(BaseTypeString(m), "typing."), others);
    if m.optional then "Optional[" + s + "]" else s
  }

  /** Optional metadata wraps the whole text in `Optional[...]`. */
  lemma TypeStringOptional(m: TypeMeta, others: seq<string>)
    requires m.optional
    ensures TypeString(m, others) == "Optional[" + TypeString(m.(optional := false), others) + "]"
  {
    var m' := m.(optional := false);
    assert BaseTypeString(m') == BaseTypeString(m);
  }

  /** A `typing.` prefix is dropped, and the metadata type wins over the base,
      the base over the type's name, and the name over `str(type)`. */
  lemma TypeStringPrecedence(m: TypeMeta, t: string)
    requires !m.optional
    ensures m.typeRepr == Some("typing." + t) ==> TypeString(m, []) == SubDot(t, "typing.")
    ensures m.typeRepr.None? && m.base.Some? ==> TypeString(m, []) == SubDot(m.base.value, "typing.")
    ensures m.typeRepr.None? && m.base.None? && m.typeName.Some? ==>
              TypeString(m, []) == SubDot(m.typeName.value, "typing.")
    ensures m.typeRepr.None? && m.base.None? && m.typeName.None? ==>
              TypeString(m, []) == SubDot(m.typeStr, "typing.")
  {
    if m.typeRepr == Some("typing." + t) {
      SubDotPrefix("typing.", t, "typing.");
    }
  }

  /** `get_type_string` as written, with its loop over the nested classes. */
  method GetTypeString(m: TypeMeta, others: seq<string>) returns (r: string)
    ensures r == TypeString(m, others)
  {
    r := SubDot(BaseTypeString(m), "typing.");
    for i := 0 to |others|
      invariant r == StripModules(SubDot(BaseTypeString(m), "typing."), others[..i])
    {
      assert others[..i + 1][..i] == others[..i];
      r := SubDot(r, ModulePattern(others[i]));
    }
    assert others[..|others|] == others;
    if m.optional {
      r := "Optional[" + r + "]";
    }
  }

  // ---------------------------------------------------------------------------
  // `handle_help_main`

  /** What `handle_help_main` reads of one attribute: its name, its type data,
      `module.name` of its type when that is an Enum, what `extract_fnc`
      returns for it, and the repr of its default (None for `NOTHING`). */
  datatype HelpAttr = HelpAttr(name: string, meta: TypeMeta, enumRef: Option<string>,
                               nested: seq<string>, default: Option<string>)

  datatype HelpClass = HelpClass(moduleName: string, name: string, doc: Option<string>, attrs: seq<HelpAttr>)

  /** The names one attribute adds to `other_list`. */
  function Refs(a: HelpAttr): seq<string> {
    (if a.enumRef.Some? then [a.enumRef.value] else []) + a.nested
  }

  /** `other_list` after the attributes `attrs`. */
  function AttrRefs(attrs: seq<HelpAttr>): seq<string>
    decreases |attrs|
  {
    if attrs == [] then [] else AttrRefs(attrs[..|attrs| - 1]) + Refs(attrs[|attrs| - 1])
  }

  /** `other_list` after the classes `classes`. */
  function ClassRefs(classes: seq<HelpClass>): seq<string>
    decreases |classes|
  {
    if classes == [] then [] else ClassRefs(classes[..|classes| - 1]) + AttrRefs(classes[|classes| - 1].attrs)
  }

  /** `module.name` of a class. */
  function FullName(c: HelpClass): string {
    c.moduleName + "." + c.name
  }

  /** `covered_set`: the full name of every input class. */
  function Covered(classes: seq<HelpClass>): set<string>
    decreases |classes|
  {
    if classes == [] then {} else Covered(classes[..|classes| - 1]) + {FullName(classes[|classes| - 1])}
  }

  /** `other_list` holds exactly the names the attributes contribute. */
  lemma {:induction false} InAttrRefs(attrs: seq<HelpAttr>, x: string)
    ensures x in AttrRefs(attrs) <==> exists j :: 0 <= j < |attrs| && x in Refs(attrs[j])
    decreases |attrs|
  {
    if attrs != [] {
      var n := |attrs| - 1;
      InAttrRefs(attrs[..n], x);
      assert forall j :: 0 <= j < n ==> attrs[..n][j] == attrs[j];
    }
  }

  lemma {:induction false} ClassRefsFrom(classes: seq<HelpClass>, x: string)
    requires x in ClassRefs(classes)
    ensures exists i, j :: 0 <= i < |classes| && 0 <= j < |classes[i].attrs| && x in Refs(classes[i].attrs[j])
    decreases |classes|
  {
    var n := |classes| - 1;
    var pre := classes[..n];
    if x in ClassRefs(pre) {
      ClassRefsFrom(pre, x);
      var i, j :| 0 <= i < |pre| && 0 <= j < |pre[i].attrs| && x in Refs(pre[i].attrs[j]);
      assert pre[i] == classes[i];
      assert x in Refs(classes[i].attrs[j]);
    } else {
      InAttrRefs(classes[n].attrs, x);
      var j :| 0 <= j < |classes[n].attrs| && x in Refs(classes[n].attrs[j]);
      assert x in Refs(classes[n].attrs[j]);
    }
  }

  lemma {:induction false} ClassRefsHas(classes: seq<HelpClass>, x: string, i: int, j: int)
    requires 0 <= i < |classes| && 0 <= j < |classes[i].attrs| && x in Refs(classes[i].attrs[j])
    ensures x in ClassRefs(classes)
    decreases |classes|
  {
    var n := |classes| - 1;
    var pre := classes[..n];
    if i < n {
      assert pre[i] == classes[i];
      ClassRefsHas(pre, x, i, j);
    } else {
      InAttrRefs(classes[n].attrs, x);
    }
  }

  /** ... over all the classes' attributes. */
  lemma InClassRefs(classes: seq<HelpClass>, x: string)
    ensures x in ClassRefs(classes) <==> exists i, j :: 0 <= i < |classes| && 0 <= j < |classes[i].attrs|
                                                        && x in Refs(classes[i].attrs[j])
  {
    if x in ClassRefs(classes) {
      ClassRefsFrom(classes, x);
    }
    if exists i, j :: 0 <= i < |classes| && 0 <= j < |classes[i].attrs| && x in Refs(classes[i].attrs[j]) {
      var i, j :| 0 <= i < |classes| && 0 <= j < |classes[i].attrs| && x in Refs(classes[i].attrs[j]);
      ClassRefsHas(classes, x, i, j);
    }
  }

  /** `covered_set` holds exactly the classes' full names. */
  lemma {:induction false} InCovered(classes: seq<HelpClass>, x: string)
    ensures x in Covered(classes) <==> exists i :: 0 <= i < |classes| && FullName(classes[i]) == x
    decreases |classes|
  {
    if classes != [] {
      var n := |classes| - 1;
      InCovered(classes[..n], x);
      assert forall i :: 0 <= i < n ==> classes[..n][i] == classes[i];
    }
  }

  lemma AttrRefsStep(attrs: seq<HelpAttr>, j: nat)
    requires j < |attrs|
    ensures AttrRefs(attrs[..j + 1]) == AttrRefs(attrs[..j]) + Refs(attrs[j])
  {
    assert attrs[..j + 1][..j] == attrs[..j];
  }

  lemma ClassRefsStep(classes: seq<HelpClass>, i: nat)
    requires i < |classes|
    ensures ClassRefs(classes[..i + 1]) == ClassRefs(classes[..i]) + AttrRefs(classes[i].attrs)
  {
    assert classes[..i + 1][..i] == classes[..i];
  }

  lemma CoveredStep(classes: seq<HelpClass>, i: nat)
    requires i < |classes|
    ensures Covered(classes[..i + 1]) == Covered(classes[..i]) + {FullName(classes[i])}
  {
    assert classes[..i + 1][..i] == classes[..i];
  }

  /** The inner loop of `handle_help_main` over one class's attributes: the
      names it adds to `other_list` and the `info_dict` it fills. */
  method DescribeAttrs(attrs: seq<HelpAttr>, attrDocs: seq<string>) returns (refs: seq<string>, info: Dict<AttrInfo>)
    requires forall j :: 0 <= j < |attrs| ==> attrs[j].name != []
    ensures refs == AttrRefs(attrs)
    ensures info == [] <==> attrs == []
    ensures Measured(info)
  {
    refs := [];
    info := [];
    for j := 0 to |attrs|
      invariant refs == AttrRefs(attrs[..j])
      invariant info == [] <==> j == 0
      invariant Measured(info)
    {
      AttrRefsStep(attrs, j);
      var a := attrs[j];
      ghost var before := refs;
      if a.enumRef.Some? {
        refs := refs + [a.enumRef.value];
      }
      refs := refs + a.nested;
      assert refs == before + Refs(a);
      var ts := GetTypeString(a.meta, a.nested);
      var entry := MatchAttributeDocs(a.name, attrDocs, ts, a.default);
      PutHasKeys(info, entry.0, entry.1);
      PutEntries(info, entry.0, entry.1);
      assert HasKey(Put(info, entry.0, entry.1), entry.0);
      info := Put(info, entry.0, entry.1);
    }
    assert attrs[..|attrs|] == attrs;
  }

  /** One pass of the outer loop of `handle_help_main`, up to the printing:
      the class's docstring split and its attributes described. */
  method DescribeClass(cls: HelpClass) returns (refs: seq<string>, info: Dict<AttrInfo>)
    requires forall j :: 0 <= j < |cls.attrs| ==> cls.attrs[j].name != []
    ensures refs == AttrRefs(cls.attrs)
    ensures info == [] <==> cls.attrs == []
    ensures Measured(info)
  {
    var docs := SplitDocs(cls.doc);
    refs, info := DescribeAttrs(cls.attrs, docs.attrDocs);
  }

  /** `handle_help_main(input_classes, module_name, extract_fnc, max_indent)`:
      the classes and enums still to describe, without repeats and without the
      classes already described; a class without attributes makes `max()`
      raise ValueError. */
  method HandleHelpMain(classes: seq<HelpClass>, maxIndent: int) returns (r: Result<set<string>>)
    requires forall i, j :: 0 <= i < |classes| && 0 <= j < |classes[i].attrs| ==> classes[i].attrs[j].name != []
    ensures r.Err? <==> exists i :: 0 <= i < |classes| && classes[i].attrs == []
    ensures r.Err? ==> r.exc == ValueError
    ensures r.Ok? ==> r.value == (set x | x in ClassRefs(classes)) - Covered(classes)
  {
    var others: seq<string> := [];
    var covered: set<string> := {};
    for i := 0 to |classes|
      invariant others == ClassRefs(classes[..i])
      invariant covered == Covered(classes[..i])
      invariant forall c :: 0 <= c < i ==> classes[c].attrs != []
    {
      ClassRefsStep(classes, i);
      var cls := classes[i];
      var refs, info := DescribeClass(cls);
      others := others + refs;
      CoveredStep(classes, i);
      covered := covered + {FullName(cls)};
      var lines := AttributeLines(info, maxIndent);
      if lines.Err? {
        return Err(lines.exc);
      }
    }
    assert classes[..|classes|] == classes;
    return Ok((set x | x in others) - covered);
  }
}
