/** Paths as byte text, their '/'-separated segments, and the canonical path rules. */
module Paths {
  import opened Wrappers

  /** UTF-8 text as its bytes. */
  type Text = Bytes

  const SLASH: byte := 0x2F
  const MAX_PATH_BYTES := 4096
  const MAX_SYMLINK_TARGET_BYTES := 4096

  /** The Unicode facts the path rules consult: UTF-8 validity, NFC, control
      characters and per-character lower-casing. */
  datatype TextRules = TextRules(utf8: Text -> bool, nfc: Text -> bool, control: Text -> bool, fold: Text -> Text)

  // --- segments ------------------------------------------------------------------

  /** `rsplit_once('/')`: what precedes the last slash, and what follows it. */
  function SplitParent(p: Text): (r: (Option<Text>, Text))
    ensures SLASH !in r.1
    ensures r.0.None? ==> p == r.1
    ensures r.0.Some? ==> p == r.0.value + [SLASH] + r.1
  {
    if p == [] then (None, [])
    else if p[|p| - 1] == SLASH then (Some(p[..|p| - 1]), [])
    else
      var (parent, name) := SplitParent(p[..|p| - 1]);
      (parent, name + [p[|p| - 1]])
  }

  /** `split('/')`. */
  function Segments(p: Text): (s: seq<Text>)
    ensures s != []
    decreases |p|
  {
    var (parent, name) := SplitParent(p);
    if parent.None? then [name] else Segments(parent.value) + [name]
  }

  function Join(s: seq<Text>): Text
    requires s != []
  {
    if |s| == 1 then s[0] else Join(s[..|s| - 1]) + [SLASH] + s[|s| - 1]
  }

  lemma {:induction false} JoinSegments(p: Text)
    ensures Join(Segments(p)) == p
    decreases |p|
  {
    var (parent, name) := SplitParent(p);
    if parent.Some? {
      JoinSegments(parent.value);
      assert Segments(p)[..|Segments(p)| - 1] == Segments(parent.value);
    }
  }

  lemma {:induction false} SplitSnoc(p: Text, name: Text)
    requires SLASH !in name
    ensures SplitParent(p + [SLASH] + name) == (Some(p), name)
  {
    var q := p + [SLASH] + name;
    if name == [] {
      assert q[..|q| - 1] == p;
    } else {
      SplitSnoc(p, name[..|name| - 1]);
      assert q[..|q| - 1] == p + [SLASH] + name[..|name| - 1];
      assert q[|q| - 1] == name[|name| - 1] && name[..|name| - 1] + [name[|name| - 1]] == name;
    }
  }

  lemma {:induction false} SplitWhole(name: Text)
    requires SLASH !in name
    ensures SplitParent(name) == (None, name)
  {
    if name != [] {
      SplitWhole(name[..|name| - 1]);
    }
  }

  lemma {:induction false} SegmentsJoin(s: seq<Text>)
    requires s != [] && forall i | 0 <= i < |s| :: SLASH !in s[i]
    ensures Segments(Join(s)) == s
  {
    if |s| == 1 {
      SplitWhole(s[0]);
      assert s == [s[0]];
    } else {
      var init, last := s[..|s| - 1], s[|s| - 1];
      SegmentsJoin(init);
      SplitSnoc(Join(init), last);
      assert s == init + [last];
    }
  }

  lemma {:induction false} JoinAppend(a: seq<Text>, b: seq<Text>)
    requires a != [] && b != []
    ensures Join(a + b) == Join(a) + [SLASH] + Join(b)
  {
    var s := a + b;
    assert s[|s| - 1] == b[|b| - 1];
    if |b| == 1 {
      assert s[..|s| - 1] == a;
    } else {
      assert s[..|s| - 1] == a + b[..|b| - 1];
      JoinAppend(a, b[..|b| - 1]);
      assert Join(s) == Join(a) + [SLASH] + Join(b[..|b| - 1]) + [SLASH] + b[|b| - 1];
    }
  }

  /** `to == from || to.starts_with(from + "/")` */
  predicate InSubtree(from: Text, to: Text) { to == from || from + [SLASH] <= to }

  lemma {:induction false} SegmentsHaveNoSlash(p: Text)
    ensures forall i | 0 <= i < |Segments(p)| :: SLASH !in Segments(p)[i]
    decreases |p|
  {
    var (parent, name) := SplitParent(p);
    if parent.Some? {
      SegmentsHaveNoSlash(parent.value);
    }
  }

  lemma SegmentsAppend(from: Text, rest: Text)
    ensures Segments(from + [SLASH] + rest) == Segments(from) + Segments(rest)
  {
    hide Segments, Join;
    var a, b := Segments(from), Segments(rest);
    JoinSegments(from);
    JoinSegments(rest);
    JoinAppend(a, b);
    SegmentsHaveNoSlash(from);
    SegmentsHaveNoSlash(rest);
    SegmentsJoin(a + b);
  }

  /** The textual subtree test is the segment-prefix test. */
  lemma PrefixIsSubtree(from: Text, to: Text)
    ensures Segments(from) <= Segments(to) <==> InSubtree(from, to)
  {
    hide Segments, Join;
    var a := Segments(from);
    if from + [SLASH] <= to {
      var rest := to[|from| + 1..];
      assert to == from + [SLASH] + rest;
      SegmentsAppend(from, rest);
    } else if a <= Segments(to) {
      var b := Segments(to)[|a|..];
      assert Segments(to) == a + b;
      JoinSegments(from);
      JoinSegments(to);
      if b == [] {
        assert Segments(to) == a;
      } else {
        JoinAppend(a, b);
      }
    }
  }

  // --- the path rules ---------------------------------------------------------------

  const DOT: byte := 0x2E
  const SPACE: byte := 0x20

  /** `\ : * ? " < > |` */
  const FORBIDDEN: set<byte> := {0x5C, 0x3A, 0x2A, 0x3F, 0x22, 0x3C, 0x3E, 0x7C}

  function Upper(b: byte): byte { if 0x61 <= b <= 0x7A then b - 0x20 else b }

  function Stem(segment: Text): Text {
    if segment == [] || segment[0] == DOT then [] else [segment[0]] + Stem(segment[1..])
  }

  /** CON, PRN, AUX, NUL, COM1..COM9, LPT1..LPT9, in any ASCII case. */
  predicate Reserved(stem: Text) {
    var up := seq(|stem|, i requires 0 <= i < |stem| => Upper(stem[i]));
    || up in {[0x43, 0x4F, 0x4E], [0x50, 0x52, 0x4E], [0x41, 0x55, 0x58], [0x4E, 0x55, 0x4C]}
    || (|up| == 4 && up[..3] in {[0x43, 0x4F, 0x4D], [0x4C, 0x50, 0x54]} && 0x31 <= up[3] <= 0x39)
  }

  predicate ValidSegment(rules: TextRules, segment: Text) {
    && segment != [] && segment != [DOT] && segment != [DOT, DOT]
    && !rules.control(segment)
    && (forall i | 0 <= i < |segment| :: segment[i] !in FORBIDDEN)
    && segment[|segment| - 1] != DOT && segment[|segment| - 1] != SPACE
    && !Reserved(Stem(segment))
  }

  predicate ValidPath(rules: TextRules, p: Text) {
    && 0 < |p| <= MAX_PATH_BYTES
    && rules.nfc(p)
    && p[0] != SLASH
    && forall i | 0 <= i < |Segments(p)| :: ValidSegment(rules, Segments(p)[i])
  }

  predicate ValidTarget(rules: TextRules, target: Text) {
    0 < |target| <= MAX_SYMLINK_TARGET_BYTES && !rules.control(target)
  }
}
