/** The Java and commons-lang string operations the plugin relies on: `isBlank`,
    `String.trim`, `startsWith` / `endsWith`, and splitting an explicit list of
    pipeline-instance IDs with `trim().split("\\s*,\\s*")`.

    A Java `String` that may be `null` is an `Option<string>`; a Java `char` is a Dafny
    `char`. */
module JavaText {
  import opened Wrappers

  /** `Character.isWhitespace`: tab, line feed, vertical tab, form feed, carriage return,
      the four information separators U+001C..U+001F, and the Unicode space, line and
      paragraph separators except the non-breaking ones (U+00A0, U+2007, U+202F). */
  predicate IsWhitespace(c: char) {
    var n := c as int;
    || 9 <= n <= 13
    || 28 <= n <= 32
    || n == 0x1680
    || 0x2000 <= n <= 0x2006
    || 0x2008 <= n <= 0x200A
    || n == 0x2028 || n == 0x2029 || n == 0x205F || n == 0x3000
  }

  /** commons-lang `StringUtils.isBlank`: `null`, empty, or whitespace only. */
  predicate IsBlank(s: Option<string>) {
    s.None? || forall i :: 0 <= i < |s.value| ==> IsWhitespace(s.value[i])
  }

  predicate StartsWith(s: string, prefix: string) {
    |prefix| <= |s| && s[..|prefix|] == prefix
  }

  predicate EndsWith(s: string, suffix: string) {
    |suffix| <= |s| && s[|s| - |suffix|..] == suffix
  }

  /** The characters `String.trim` removes: every code point up to U+0020. */
  predicate IsTrimmable(c: char) {
    c <= ' '
  }

  /** The regular-expression class `\s`: space, tab, line feed, vertical tab, form feed
      and carriage return. */
  predicate IsRegexSpace(c: char) {
    c == ' ' || 9 <= c as int <= 13
  }

  /** Drops the leading characters that satisfy `drop`. */
  function StripStart(s: string, drop: char -> bool): (r: string)
    ensures |r| <= |s|
    ensures r == [] || !drop(r[0])
  {
    if |s| > 0 && drop(s[0]) then StripStart(s[1..], drop) else s
  }

  /** Drops the trailing characters that satisfy `drop`. */
  function StripEnd(s: string, drop: char -> bool): (r: string)
    ensures |r| <= |s|
    ensures r == [] || !drop(r[|r| - 1])
  {
    if |s| > 0 && drop(s[|s| - 1]) then StripEnd(s[..|s| - 1], drop) else s
  }

  /** Drops the characters that satisfy `drop` at both ends. */
  function Strip(s: string, drop: char -> bool): (r: string)
    ensures |r| <= |s|
    ensures r == [] || (!drop(r[0]) && !drop(r[|r| - 1]))
  {
    var t := StripStart(s, drop);
    StripEndDropsOnly(t, drop);
    StripEnd(t, drop)
  }

  /** Every character of `s` before `i` and from `j` on satisfies `drop`. */
  predicate Dropped(s: string, i: int, j: int, drop: char -> bool)
    requires 0 <= i <= j <= |s|
  {
    (forall k :: 0 <= k < i ==> drop(s[k])) && (forall k :: j <= k < |s| ==> drop(s[k]))
  }

  /** What `StripStart` leaves is a suffix of its input, and every character it removed
      satisfies `drop`. */
  lemma {:induction false} StripStartDropsOnly(s: string, drop: char -> bool)
    ensures StripStart(s, drop) == s[|s| - |StripStart(s, drop)|..]
    ensures Dropped(s, |s| - |StripStart(s, drop)|, |s|, drop)
  {
    if |s| > 0 && drop(s[0]) {
      StripStartDropsOnly(s[1..], drop);
    }
  }

  /** What `StripEnd` leaves is a prefix of its input, and every character it removed
      satisfies `drop`. */
  lemma {:induction false} StripEndDropsOnly(s: string, drop: char -> bool)
    ensures StripEnd(s, drop) == s[..|StripEnd(s, drop)|]
    ensures Dropped(s, 0, |StripEnd(s, drop)|, drop)
  {
    if |s| > 0 && drop(s[|s| - 1]) {
      StripEndDropsOnly(s[..|s| - 1], drop);
    }
  }

  /** `Strip` keeps one slice `s[i..j]` of its input and removes only `drop` characters
      around it. */
  lemma StripDropsOnly(s: string, drop: char -> bool)
    ensures exists i, j :: 0 <= i <= j <= |s| && Strip(s, drop) == s[i..j] && Dropped(s, i, j, drop)
  {
    var t := StripStart(s, drop);
    var r := StripEnd(t, drop);
    StripStartDropsOnly(s, drop);
    StripEndDropsOnly(t, drop);
    var i := |s| - |t|;
    assert r == s[i..i + |r|];
    forall k | i + |r| <= k < |s| ensures drop(s[k]) {
      assert s[k] == t[k - i];
    }
    assert Dropped(s, i, i + |r|, drop);
  }

  /** Stripping only removes characters, so it cannot introduce a comma. */
  lemma StripKeepsCommaFree(s: string, drop: char -> bool)
    requires ',' !in s
    ensures ',' !in Strip(s, drop)
  {
    var t := StripStart(s, drop);
    var r := StripEnd(t, drop);
    StripStartDropsOnly(s, drop);
    StripEndDropsOnly(t, drop);
    forall i | 0 <= i < |r| ensures r[i] != ',' {
      assert r[i] == t[i] == s[|s| - |t| + i];
    }
  }

  /** `String.trim`. */
  function Trim(s: string): (r: string)
    ensures r == [] || (r[0] > ' ' && r[|r| - 1] > ' ')
  {
    Strip(s, IsTrimmable)
  }

  /** `String.trim` removes characters `<= ' '` at the two ends and nothing else: the
      result is one slice `s[i..j]` of the input, with only such characters around it. */
  lemma TrimDropsOnlyBlanks(s: string)
    ensures exists i, j :: 0 <= i <= j <= |s| && Trim(s) == s[i..j] && Dropped(s, i, j, IsTrimmable)
  {
    StripDropsOnly(s, IsTrimmable);
  }

  /** A string whose two ends are already free of `drop` characters is its own strip. */
  lemma StripUnchanged(s: string, drop: char -> bool)
    requires s == [] || (!drop(s[0]) && !drop(s[|s| - 1]))
    ensures Strip(s, drop) == s
  {
  }

  /** The comma-separated fields of `s`, commas removed, nothing else changed. */
  function SplitOnComma(s: string): (fields: seq<string>)
    ensures |fields| >= 1
    ensures forall k :: 0 <= k < |fields| ==> ',' !in fields[k]
  {
    if |s| == 0 then [""]
    else
      var rest := SplitOnComma(s[1..]);
      if s[0] == ',' then [""] + rest
      else [[s[0]] + rest[0]] + rest[1..]
  }

  /** The inverse of `SplitOnComma`: the fields glued together with commas. */
  function JoinWithComma(fields: seq<string>): string {
    if fields == [] then ""
    else if |fields| == 1 then fields[0]
    else fields[0] + "," + JoinWithComma(fields[1..])
  }

  /** Splitting, then joining, gives back the original text. */
  lemma {:induction false} JoinSplitOnComma(s: string)
    ensures JoinWithComma(SplitOnComma(s)) == s
  {
    if |s| > 0 {
      var rest := SplitOnComma(s[1..]);
      JoinSplitOnComma(s[1..]);
      if s[0] == ',' {
        assert SplitOnComma(s) == [""] + rest;
        assert ([""] + rest)[1..] == rest;
      } else {
        var fields := SplitOnComma(s);
        assert fields == [[s[0]] + rest[0]] + rest[1..];
        if |rest| == 1 {
          assert fields == [[s[0]] + rest[0]];
        } else {
          assert fields[1..] == rest[1..];
          assert JoinWithComma(rest) == rest[0] + "," + JoinWithComma(rest[1..]);
        }
      }
    }
  }

  /** A comma-free prefix glues onto the first field of what follows it. */
  lemma {:induction false} SplitCommaFreePrefix(a: string, b: string)
    requires ',' !in a
    ensures SplitOnComma(a + b) == [a + SplitOnComma(b)[0]] + SplitOnComma(b)[1..]
  {
    if a != [] {
      SplitCommaFreePrefix(a[1..], b);
      assert (a + b)[1..] == a[1..] + b;
      assert [a[0]] + (a[1..] + SplitOnComma(b)[0]) == a + SplitOnComma(b)[0];
    } else {
      var fields := SplitOnComma(b);
      assert a + b == b;
      assert a + fields[0] == fields[0];
      assert fields == [fields[0]] + fields[1..];
    }
  }

  /** Joining comma-free fields, then splitting, gives back the fields. */
  lemma {:induction false} SplitJoinWithComma(fields: seq<string>)
    requires |fields| >= 1
    requires forall k :: 0 <= k < |fields| ==> ',' !in fields[k]
    ensures SplitOnComma(JoinWithComma(fields)) == fields
  {
    if |fields| == 1 {
      SplitCommaFreePrefix(fields[0], "");
      assert fields[0] + "" == fields[0];
    } else {
      var tail := JoinWithComma(fields[1..]);
      SplitJoinWithComma(fields[1..]);
      assert JoinWithComma(fields) == fields[0] + ("," + tail);
      SplitCommaFreePrefix(fields[0], "," + tail);
      assert ("," + tail)[1..] == tail;
      var after := SplitOnComma("," + tail);
      assert after == [""] + fields[1..];
      assert after[0] == "" && after[1..] == fields[1..];
      assert fields[0] + "" == fields[0];
      assert fields == [fields[0]] + fields[1..];
    }
  }

  /** Each field with the `\s` characters at both ends removed: one piece per field, no
      longer than it, with no `\s` at either end, and comma-free when the field is. */
  function StripEach(fields: seq<string>): (r: seq<string>)
    ensures |r| == |fields|
    ensures forall k :: 0 <= k < |r| ==> IsRegexSpaceFree(r[k]) && |r[k]| <= |fields[k]|
    ensures forall k :: 0 <= k < |r| && ',' !in fields[k] ==> ',' !in r[k]
  {
    StripEachKeepsCommaFree(fields);
    seq(|fields|, k requires 0 <= k < |fields| => Strip(fields[k], IsRegexSpace))
  }

  /** `StripKeepsCommaFree` for every field at once. */
  lemma StripEachKeepsCommaFree(fields: seq<string>)
    ensures forall k :: 0 <= k < |fields| && ',' !in fields[k] ==> ',' !in Strip(fields[k], IsRegexSpace)
  {
    forall k | 0 <= k < |fields| && ',' !in fields[k] ensures ',' !in Strip(fields[k], IsRegexSpace) {
      StripKeepsCommaFree(fields[k], IsRegexSpace);
    }
  }

  /** `String.split` with limit 0 drops the trailing empty strings of its result. */
  function DropTrailingEmpty(fields: seq<string>): (r: seq<string>)
    ensures |r| <= |fields| && r == fields[..|r|]
    ensures r == [] || r[|r| - 1] != ""
    ensures forall k :: |r| <= k < |fields| ==> fields[k] == ""
  {
    if |fields| > 0 && fields[|fields| - 1] == "" then DropTrailingEmpty(fields[..|fields| - 1])
    else fields
  }

  /** `pi.trim().split("\\s*,\\s*")`. Every separator match is the comma together with
      the `\s` runs on both of its sides; the text is already trimmed, and `trim` removes
      every `\s` character, so this is "split on commas and strip `\s` from each field".
      When there is no comma the regular expression matches nowhere and Java returns the
      trimmed text itself, even when it is empty; otherwise the trailing empty fields are
      dropped, so `","` gives no IDs at all. */
  function SplitPiList(pi: string): (ids: seq<string>)
    ensures ',' !in Trim(pi) ==> ids == [Trim(pi)]
    ensures ',' in Trim(pi) ==> ids == [] || ids[|ids| - 1] != ""
  {
    var t := Trim(pi);
    if ',' !in t then [t] else DropTrailingEmpty(StripEach(SplitOnComma(t)))
  }

  /** Blanks around the list and around each comma are removed, and only they. */
  lemma SplitPiListSpaced()
    ensures SplitPiList(" a , b ") == ["a", "b"]
  {
    TrimSpaced();
    assert "a , b"[2] == ',';
    SplitPiListSplits(" a , b ");
    SplitOnCommaSpaced();
    StripEachSpaced();
    assert DropTrailingEmpty(["a", "b"]) == ["a", "b"];
  }

  /** The two fields of the example with their `\s` ends removed. */
  lemma StripEachSpaced()
    ensures StripEach(["a ", " b"]) == ["a", "b"]
  {
    assert "a "[..1] == "a";
    assert Strip("a ", IsRegexSpace) == "a";
    assert " b"[1..] == "b";
    assert Strip(" b", IsRegexSpace) == "b";
  }

  /** The example list with its outer blanks trimmed. */
  lemma TrimSpaced()
    ensures Trim(" a , b ") == "a , b"
  {
    assert " a , b "[1..] == "a , b ";
    assert StripStart(" a , b ", IsTrimmable) == "a , b ";
    assert "a , b "[..5] == "a , b";
    assert StripEnd("a , b ", IsTrimmable) == "a , b";
  }

  /** The comma split of the trimmed example, computed field by field. */
  lemma SplitOnCommaSpaced()
    ensures SplitOnComma("a , b") == ["a ", " b"]
  {
    var e := SplitOnComma("");
    assert e == [""];
    assert "b"[1..] == "";
    var b1 := SplitOnComma("b");
    assert ['b'] + e[0] == "b" && e[1..] == [];
    assert b1 == ["b"];
    assert " b"[1..] == "b";
    var b2 := SplitOnComma(" b");
    assert [' '] + b1[0] == " b" && b1[1..] == [];
    assert b2 == [" b"];
    assert ", b"[1..] == " b";
    var b3 := SplitOnComma(", b");
    assert b3 == ["", " b"];
    assert " , b"[1..] == ", b";
    var b4 := SplitOnComma(" , b");
    assert [' '] + b3[0] == " " && b3[1..] == [" b"];
    assert b4 == [" ", " b"];
    assert "a , b"[1..] == " , b";
    assert ['a'] + b4[0] == "a " && b4[1..] == [" b"];
  }

  /** No ID that comes out of the list contains a comma, or has `\s` at either end. */
  lemma SplitPiListPieces(pi: string)
    ensures forall k :: 0 <= k < |SplitPiList(pi)| ==> ',' !in SplitPiList(pi)[k]
    ensures forall k :: 0 <= k < |SplitPiList(pi)| ==> IsRegexSpaceFree(SplitPiList(pi)[k])
  {
    var t := Trim(pi);
    var ids := SplitPiList(pi);
    if ',' in t {
      var fields := SplitOnComma(t);
      var stripped := StripEach(fields);
      assert ids == DropTrailingEmpty(stripped);
    } else {
      assert ids == [t];
    }
  }

  /** Neither end of `id` is a `\s` character. */
  predicate IsRegexSpaceFree(id: string) {
    id == [] || (!IsRegexSpace(id[0]) && !IsRegexSpace(id[|id| - 1]))
  }

  /** What a user writes as an explicit pipeline-instance list: non-empty IDs without
      commas and without blank characters at either end. */
  predicate IsListableId(id: string) {
    |id| > 0 && ',' !in id && id[0] > ' ' && id[|id| - 1] > ' '
  }

  lemma {:induction false} JoinWithCommaEnds(ids: seq<string>)
    requires |ids| >= 1
    requires forall k :: 0 <= k < |ids| ==> IsListableId(ids[k])
    ensures |ids[0]| > 0 && |ids[|ids| - 1]| > 0
    ensures var j := JoinWithComma(ids);
      |j| > 0 && j[0] == ids[0][0] && j[|j| - 1] == ids[|ids| - 1][|ids[|ids| - 1]| - 1]
  {
    assert IsListableId(ids[0]) && IsListableId(ids[|ids| - 1]);
    if |ids| > 1 {
      JoinWithCommaEnds(ids[1..]);
    }
  }

  /** Round trip: the comma-joined list of well-formed IDs splits back into exactly those
      IDs, in order. */
  lemma SplitPiListOfJoin(ids: seq<string>)
    requires |ids| >= 1
    requires forall k :: 0 <= k < |ids| ==> IsListableId(ids[k])
    ensures SplitPiList(JoinWithComma(ids)) == ids
  {
    TrimOfJoin(ids);
    if |ids| == 1 {
      SplitPiListOfOne(ids);
    } else {
      SplitPiListOfMany(ids);
    }
  }

  lemma SplitPiListOfOne(ids: seq<string>)
    requires |ids| == 1 && IsListableId(ids[0])
    requires Trim(JoinWithComma(ids)) == JoinWithComma(ids)
    ensures SplitPiList(JoinWithComma(ids)) == ids
  {
  }

  lemma SplitPiListOfMany(ids: seq<string>)
    requires |ids| >= 2
    requires forall k :: 0 <= k < |ids| ==> IsListableId(ids[k])
    requires Trim(JoinWithComma(ids)) == JoinWithComma(ids)
    ensures SplitPiList(JoinWithComma(ids)) == ids
  {
    var j := JoinWithComma(ids);
    assert j == ids[0] + "," + JoinWithComma(ids[1..]);
    assert j[|ids[0]|] == ',';
    forall k | 0 <= k < |ids| ensures ',' !in ids[k] {
      assert IsListableId(ids[k]);
    }
    assert ',' in Trim(j);
    SplitJoinWithComma(ids);
    StripEachListable(ids);
    assert IsListableId(ids[|ids| - 1]);
    assert ids[|ids| - 1] != "";
    assert DropTrailingEmpty(ids) == ids;
    SplitPiListSplits(j);
  }

  lemma SplitPiListSplits(pi: string)
    requires ',' in Trim(pi)
    ensures SplitPiList(pi) == DropTrailingEmpty(StripEach(SplitOnComma(Trim(pi))))
  {
  }

  lemma TrimOfJoin(ids: seq<string>)
    requires |ids| >= 1
    requires forall k :: 0 <= k < |ids| ==> IsListableId(ids[k])
    ensures Trim(JoinWithComma(ids)) == JoinWithComma(ids)
  {
    var j := JoinWithComma(ids);
    JoinWithCommaEnds(ids);
    assert !IsTrimmable(j[0]) && !IsTrimmable(j[|j| - 1]);
    StripUnchanged(j, IsTrimmable);
  }

  lemma StripEachListable(ids: seq<string>)
    requires forall k :: 0 <= k < |ids| ==> IsListableId(ids[k])
    ensures StripEach(ids) == ids
  {
  }

  /** A lone comma is no list at all. */
  lemma SplitPiListCommaOnly()
    ensures SplitPiList(",") == []
  {
  }
}
