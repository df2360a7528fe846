/** Index strings of node attributes (attribute_resolver.py:168-197). */
module IndexCodec {
  import opened Wrappers

  const PREFIX := "/node/attribute"

  /** One level of an index; nothing stands for "any". */
  type Level = Option<string>

  function Code(c: char): string {
    if c == '\\' then "\\\\" else if c == '/' then "\\/" else [c]
  }

  /** a.replace('\\', '\\\\').replace('/', '\\/') */
  function Escape(s: string): string {
    if s == [] then [] else Code(s[0]) + Escape(s[1..])
  }

  function Text(l: Level): string { if l.Some? then l.value else "" }

  function Encode(attr: seq<Level>): string
    decreases |attr|
  {
    PREFIX + Levels(attr)
  }

  function Levels(attr: seq<Level>): string {
    if attr == [] then "" else "/" + Escape(Text(attr[0])) + Levels(attr[1..])
  }

  /** A slash does not split when it follows a backslash that follows something other than a backslash:
      the two-character lookbehind (?<![^\\]\\) */
  predicate Shielded(before: string) {
    |before| >= 2 && before[|before| - 1] == '\\' && before[|before| - 2] != '\\'
  }

  /** re.split, with `before` already passed and `piece` the part of it since the last split. */
  function Split(before: string, piece: string, s: string): (r: seq<string>)
    ensures r != []
    decreases |s|
  {
    if s == [] then [piece]
    else if s[0] == '/' && !Shielded(before) then [piece] + Split(before + "/", "", s[1..])
    else Split(before + [s[0]], piece + [s[0]], s[1..])
  }

  /** s.replace(ab, sub), for a two-character ab */
  function Replace(s: string, a: char, b: char, sub: char): string {
    if |s| < 2 then s
    else if s[0] == a && s[1] == b then [sub] + Replace(s[2..], a, b, sub)
    else [s[0]] + Replace(s[1..], a, b, sub)
  }

  function Unescape(s: string): string { Replace(Replace(s, '\\', '/', '/'), '\\', '\\', '\\') }

  function Decoded(piece: string): Level {
    var a := Unescape(piece);
    if a != "" then Some(a) else None
  }

  function DecodedAll(pieces: seq<string>): (r: seq<Level>)
    ensures |r| == |pieces| && forall i :: 0 <= i < |r| ==> r[i] == Decoded(pieces[i])
  {
    seq(|pieces|, i requires 0 <= i < |pieces| => Decoded(pieces[i]))
  }

  function Decode(s: string): Result<seq<Level>> {
    if !(PREFIX <= s) then Raised("not a node attribute")
    else DecodedBody(if |s| <= |PREFIX| then "" else s[|PREFIX| + 1..])
  }

  function DecodedBody(s: string): Result<seq<Level>> { Ok(DecodedAll(Split("", "", s))) }

  // ------------------------------------------------------------ one level

  /** Backslashes still doubled, slashes plain. */
  function Half(s: string): string {
    if s == [] then [] else (if s[0] == '\\' then "\\\\" else [s[0]]) + Half(s[1..])
  }

  lemma EscapeStart(s: string)
    ensures Escape(s) == [] <==> s == []
    ensures s != [] ==> Escape(s)[0] != '/'
  {
  }

  lemma ReplaceStep(c: char, t: string, a: char, b: char, sub: char)
    requires !(c == a && t != [] && t[0] == b)
    ensures Replace([c] + t, a, b, sub) == [c] + Replace(t, a, b, sub)
  {
    assert ([c] + t)[1..] == t;
    if t == [] { assert [c] + t == [c]; }
  }

  lemma {:induction false} SlashesBack(s: string)
    ensures Replace(Escape(s), '\\', '/', '/') == Half(s)
    decreases |s|
  {
    if s != [] {
      var rest := Escape(s[1..]);
      SlashesBack(s[1..]);
      EscapeStart(s[1..]);
      if s[0] == '\\' {
        assert "\\\\" + rest == ['\\'] + (['\\'] + rest);
        ReplaceStep('\\', rest, '\\', '/', '/');
        ReplaceStep('\\', ['\\'] + rest, '\\', '/', '/');
        assert ['\\'] + (['\\'] + Half(s[1..])) == "\\\\" + Half(s[1..]);
      } else if s[0] == '/' {
        assert ("\\/" + rest)[2..] == rest;
      } else {
        ReplaceStep(s[0], rest, '\\', '/', '/');
      }
    }
  }

  lemma {:induction false} BackslashesBack(s: string)
    ensures Replace(Half(s), '\\', '\\', '\\') == s
    decreases |s|
  {
    if s != [] {
      var rest := Half(s[1..]);
      BackslashesBack(s[1..]);
      if s[0] == '\\' {
        assert ("\\\\" + rest)[2..] == rest;
      } else {
        ReplaceStep(s[0], rest, '\\', '\\', '\\');
      }
      assert [s[0]] + s[1..] == s;
    }
  }

  lemma UnescapeEscape(s: string)
    ensures Unescape(Escape(s)) == s
  {
    SlashesBack(s);
    BackslashesBack(s);
  }

  // ------------------------------------------------------------ where it splits

  /** The slashes in s that are split at although they belong to it: at the very start of the index, and
      after a backslash. `before` is what precedes s. */
  function Exposed(before: string, s: string): nat
    decreases |s|
  {
    if s == [] then 0
    else (if s[0] == '/' && !Shielded(before + "\\") then 1 else 0) + Exposed(before + Code(s[0]), s[1..])
  }

  /** The same, said of s alone. */
  predicate Safe(first: bool, s: string) {
    && (first ==> s == [] || s[0] != '/')
    && forall i :: 0 <= i < |s| - 1 ==> !(s[i] == '\\' && s[i + 1] == '/')
  }

  lemma SplitPlain(before: string, piece: string, c: char, s: string)
    requires c != '/' || Shielded(before)
    ensures Split(before, piece, [c] + s) == Split(before + [c], piece + [c], s)
  {
    assert ([c] + s)[1..] == s;
  }

  lemma SplitSlash(before: string, piece: string, s: string)
    requires !Shielded(before)
    ensures Split(before, piece, "/" + s) == [piece] + Split(before + "/", "", s)
  {
    assert ("/" + s)[1..] == s;
  }

  /** The number of pieces does not depend on how the current one began. */
  lemma {:induction false} PieceCount(before: string, p: string, q: string, s: string)
    ensures |Split(before, p, s)| == |Split(before, q, s)|
    decreases |s|
  {
    if s != [] && !(s[0] == '/' && !Shielded(before)) {
      PieceCount(before + [s[0]], p + [s[0]], q + [s[0]], s[1..]);
    }
  }

  /** A coded level is passed in one piece, except for its exposed slashes. */
  lemma {:induction false} PassLevel(before: string, piece: string, s: string, rest: string)
    ensures |Split(before, piece, Escape(s) + rest)| == Exposed(before, s) + |Split(before + Escape(s), piece, rest)|
    ensures Exposed(before, s) == 0 ==>
              Split(before, piece, Escape(s) + rest) == Split(before + Escape(s), piece + Escape(s), rest)
    decreases |s|
  {
    if s == [] {
      assert Escape(s) + rest == rest && before + Escape(s) == before && piece + Escape(s) == piece;
    } else {
      PassFirst(before, piece, s, rest);
    }
  }

  lemma PassFirst(before: string, piece: string, s: string, rest: string)
    requires s != []
    ensures |Split(before, piece, Escape(s) + rest)| == Exposed(before, s) + |Split(before + Escape(s), piece, rest)|
    ensures Exposed(before, s) == 0 ==>
              Split(before, piece, Escape(s) + rest) == Split(before + Escape(s), piece + Escape(s), rest)
    decreases |s|, 0
  {
    var c, tail := s[0], Escape(s[1..]) + rest;
    var b, p := before + Code(c), piece + Code(c);
    assert Escape(s) + rest == Code(c) + tail;
    assert before + Escape(s) == b + Escape(s[1..]) && piece + Escape(s) == p + Escape(s[1..]);
    PassCode(before, piece, c, tail);
    PassLevel(b, p, s[1..], rest);
    PieceCount(before + Escape(s), p, piece, rest);
    if c == '/' && !Shielded(before + "\\") {
      PieceCount(b, "", p, tail);
    }
  }

  lemma PassCode(before: string, piece: string, c: char, tail: string)
    ensures if c == '/' && !Shielded(before + "\\") then
              Split(before, piece, Code(c) + tail) == [piece + "\\"] + Split(before + Code(c), "", tail)
            else Split(before, piece, Code(c) + tail) == Split(before + Code(c), piece + Code(c), tail)
  {
    if c == '\\' || c == '/' {
      var d := Code(c)[1];
      assert Code(c) + tail == ['\\'] + ([d] + tail);
      SplitPlain(before, piece, '\\', [d] + tail);
      assert before + Code(c) == before + "\\" + [d] && piece + Code(c) == piece + "\\" + [d];
      if c == '/' && !Shielded(before + "\\") {
        SplitSlash(before + "\\", piece + "\\", tail);
      } else {
        SplitPlain(before + "\\", piece + "\\", d, tail);
      }
    } else {
      SplitPlain(before, piece, c, tail);
    }
  }

  /** Nothing yet, or a slash just before. */
  predicate AtLevel(before: string) { before == "" || before[|before| - 1] == '/' }

  lemma {:induction false} ExposedIff(before: string, s: string)
    ensures Exposed(before, s) == 0 <==>
              && (s != [] && s[0] == '/' ==> before != "" && before[|before| - 1] != '\\')
              && forall i :: 0 <= i < |s| - 1 ==> !(s[i] == '\\' && s[i + 1] == '/')
    decreases |s|
  {
    if s != [] {
      var rest := s[1..];
      ExposedIff(before + Code(s[0]), rest);
      assert (before + Code(s[0]))[|before + Code(s[0])| - 1] == '\\' <==> s[0] == '\\';
      assert Shielded(before + "\\") <==> before != "" && before[|before| - 1] != '\\';
      assert forall i :: 0 <= i < |rest| ==> rest[i] == s[i + 1];
      assert forall i :: 1 <= i < |s| ==> s[i] == rest[i - 1];
    }
  }

  lemma {:induction false} EscapeEnd(s: string)
    requires s != []
    ensures var e := Escape(s);
            && e != [] && (e[|e| - 1] == '\\' ==> |e| >= 2 && e[|e| - 2] == '\\')
    decreases |s|
  {
    if |s| == 1 {
      assert Escape(s) == Code(s[0]) + [];
    } else {
      EscapeEnd(s[1..]);
    }
  }

  /** The slash after a level is always split at. */
  lemma LevelEnds(before: string, s: string)
    requires AtLevel(before)
    ensures !Shielded(before + Escape(s))
  {
    if s == [] {
      assert before + Escape(s) == before;
    } else {
      EscapeEnd(s);
    }
  }

  function Body(attr: seq<Level>): string
    requires attr != []
  {
    Escape(Text(attr[0])) + Levels(attr[1..])
  }

  predicate AllSafe(first: bool, attr: seq<Level>) {
    forall i :: 0 <= i < |attr| ==> Safe(first && i == 0, Text(attr[i]))
  }

  lemma BodyNext(attr: seq<Level>)
    requires |attr| >= 2
    ensures Body(attr) == Escape(Text(attr[0])) + ("/" + Body(attr[1..]))
  {
    assert Levels(attr[1..]) == "/" + Escape(Text(attr[1])) + Levels(attr[1..][1..]);
    assert "/" + Escape(Text(attr[1])) + Levels(attr[1..][1..]) == "/" + Body(attr[1..]);
  }

  function Coded(attr: seq<Level>): (r: seq<string>)
    ensures |r| == |attr| && forall i :: 0 <= i < |attr| ==> r[i] == Escape(Text(attr[i]))
  {
    seq(|attr|, i requires 0 <= i < |attr| => Escape(Text(attr[i])))
  }

  /** The index splits into its levels if and only if no slash in them is exposed; else into more. */
  lemma {:induction false} SplitsIntoLevels(before: string, attr: seq<Level>)
    requires attr != [] && AtLevel(before)
    ensures |Split(before, "", Body(attr))| >= |attr|
    ensures |Split(before, "", Body(attr))| == |attr| <==> AllSafe(before == "", attr)
    ensures AllSafe(before == "", attr) ==> Split(before, "", Body(attr)) == Coded(attr)
    decreases |attr|
  {
    hide Split, Escape, Exposed, Shielded, Levels, Safe;
    var t, rest := Text(attr[0]), attr[1..];
    var next := before + Escape(t);
    SafeIff(before, t);
    AllSafeNext(before == "", attr);
    assert "" + Escape(t) == Escape(t);
    if rest == [] {
      assert Body(attr) == Escape(t) + "" by { LevelsNothing(); }
      PassLevel(before, "", t, "");
      SplitNothing(next, "");
      SplitNothing(next, Escape(t));
    } else {
      BodyNext(attr);
      PassLevel(before, "", t, "/" + Body(rest));
      LevelEnds(before, t);
      SplitSlash(next, "", Body(rest));
      SplitSlash(next, Escape(t), Body(rest));
      SplitsIntoLevels(next + "/", rest);
      assert Coded(attr) == [Escape(t)] + Coded(rest);
    }
  }

  lemma LevelsNothing()
    ensures Levels([]) == ""
  {
  }

  lemma SplitNothing(before: string, piece: string)
    ensures Split(before, piece, "") == [piece]
  {
  }

  lemma SafeIff(before: string, s: string)
    requires AtLevel(before)
    ensures Exposed(before, s) == 0 <==> Safe(before == "", s)
  {
    ExposedIff(before, s);
  }

  lemma AllSafeNext(first: bool, attr: seq<Level>)
    requires attr != []
    ensures AllSafe(first, attr) <==> Safe(first, Text(attr[0])) && AllSafe(false, attr[1..])
  {
    hide Safe;
    var rest := attr[1..];
    assert forall i :: 1 <= i < |attr| ==> attr[i] == rest[i - 1];
    assert forall i :: 0 <= i < |rest| ==> rest[i] == attr[i + 1];
  }

  predicate NoBlanks(attr: seq<Level>) { forall i :: 0 <= i < |attr| ==> attr[i] != Some("") }

  lemma EncodedBody(attr: seq<Level>)
    ensures Decode(Encode(attr)) == DecodedBody(if attr == [] then "" else Body(attr))
  {
    if attr == [] {
      assert Encode(attr) == PREFIX;
    } else {
      assert Levels(attr) == "/" + Body(attr);
      assert Encode(attr) == PREFIX + ("/" + Body(attr));
      assert Encode(attr)[|PREFIX| + 1..] == Body(attr);
    }
  }

  lemma DecodedText(l: Level)
    ensures Decoded(Escape(Text(l))) == l <==> l != Some("")
  {
    UnescapeEscape(Text(l));
  }

  /** Decoding an encoded index gives it back if and only if it has a level, none is the empty string,
      the first does not start with a slash, and no slash follows a backslash. */
  lemma IndexRoundTripIff(attr: seq<Level>)
    ensures Decode(Encode(attr)) == Ok(attr) <==> attr != [] && NoBlanks(attr) && AllSafe(true, attr)
  {
    hide Split, Body, AllSafe, Decode, Encode, Decoded;
    EncodedBody(attr);
    if attr == [] {
      SplitNothing("", "");
    } else {
      SplitsIntoLevels("", attr);
      var pieces := Split("", "", Body(attr));
      if AllSafe(true, attr) {
        forall i | 0 <= i < |attr| ensures DecodedAll(pieces)[i] == attr[i] <==> attr[i] != Some("") {
          DecodedText(attr[i]);
        }
        if NoBlanks(attr) { assert DecodedAll(pieces) == attr; }
      }
    }
  }

  /** Decoding raises exactly for what does not start as the index of a node attribute does, and does not look at
      the character behind that start. */
  lemma DecodeRaisesIff(s: string, c: char, body: string)
    ensures Decode(s).Raised? <==> forall rest: string :: s != PREFIX + rest
    ensures Decode(PREFIX + [c] + body) == Decode(PREFIX + "/" + body)
  {
    hide Split, Decoded;
    if PREFIX <= s { assert s == PREFIX + s[|PREFIX|..]; }
    forall x: char ensures (PREFIX + [x] + body)[|PREFIX| + 1..] == body && PREFIX <= PREFIX + [x] + body {}
    assert PREFIX + ['/'] + body == PREFIX + "/" + body;
  }

  /** An index that starts with a slash comes back as two levels. */
  lemma LeadingSlashSplits()
    ensures Decode(Encode([Some("/a")])) == Ok([Some("\\"), Some("a")])
  {
    hide Decode;
    var attr: seq<Level> := [Some("/a")];
    assert "/a"[1..] == "a" && "a"[1..] == "";
    assert Escape("a") == "a" by { assert "a" + "" == "a"; }
    assert Escape("/a") == "\\/a" by { assert "\\/" + "a" == "\\/a"; }
    EncodedBody(attr);
    assert Body(attr) == "\\/a";
    SlashAfterOne();
    DecodedPieces();
  }

  lemma SlashAfterOne()
    ensures Split("", "", "\\/a") == ["\\", "a"]
  {
    assert "\\/a"[1..] == "/a" && "/a"[1..] == "a" && "a"[1..] == "";
    assert "" + ['\\'] == "\\" && "\\" + "/" == "\\/" && "\\/" + ['a'] == "\\/a" && "" + ['a'] == "a";
    assert Split("\\/a", "a", "") == ["a"];
    assert Split("\\/", "", "a") == ["a"];
    assert Split("\\", "\\", "/a") == ["\\"] + ["a"];
  }

  lemma DecodedPieces()
    ensures DecodedAll(["\\", "a"]) == [Some("\\"), Some("a")]
  {
    assert Unescape("\\") == "\\" && Unescape("a") == "a";
  }

  // ------------------------------------------------------------ as loops

  method EncodeIndex(attr: seq<Level>) returns (s: string)
    ensures s == Encode(attr)
  {
    hide Escape;
    s := PREFIX;
    var i := 0;
    while i < |attr|
      invariant 0 <= i <= |attr| && s + Levels(attr[i..]) == Encode(attr)
    {
      var a := if attr[i].None? then "" else Escape(attr[i].value);
      LevelsNext(attr[i..]);
      assert attr[i..][1..] == attr[i + 1..];
      assert s + ("/" + a + Levels(attr[i + 1..])) == s + "/" + a + Levels(attr[i + 1..]);
      s := s + "/" + a;
      i := i + 1;
    }
    LevelsNothing();
    assert s + "" == s;
  }

  lemma LevelsNext(attr: seq<Level>)
    requires attr != []
    ensures Levels(attr) == "/" + (if attr[0].None? then "" else Escape(attr[0].value)) + Levels(attr[1..])
  {
    var e := Escape(Text(attr[0]));
    assert e == if attr[0].None? then "" else Escape(attr[0].value);
    assert Levels(attr) == "/" + e + Levels(attr[1..]);
  }

  method DecodeIndex(s: string) returns (r: Result<seq<Level>>)
    ensures r == Decode(s)
  {
    if !(PREFIX <= s) { return Raised("not a node attribute"); }
    var pieces := Split("", "", if |s| <= |PREFIX| then "" else s[|PREFIX| + 1..]);
    var attr: seq<Level> := [];
    var i := 0;
    while i < |pieces|
      invariant 0 <= i <= |pieces| && attr == DecodedAll(pieces)[..i]
    {
      var a := Replace(pieces[i], '\\', '/', '/');
      a := Replace(a, '\\', '\\', '\\');
      attr := attr + [if a != "" then Some(a) else None];
      i := i + 1;
    }
    assert DecodedAll(pieces)[..i] == DecodedAll(pieces);
    r := Ok(attr);
  }
}
