/**
  The JavaScript string operations the pages rely on: `toLowerCase`,
  `includes`, `trim`, `split(",")`, `join(", ")`, and the decimal rendering of
  integers inside template strings.
*/
module Text {
  import opened Util

  /** `toLowerCase` on one character; only the ASCII letters are folded here. */
  function LowerChar(c: char): char {
    if 'A' <= c <= 'Z' then (c as int + 32) as char else c
  }

  function Lower(s: string): (r: string)
    ensures |r| == |s|
    ensures forall i :: 0 <= i < |s| ==> r[i] == LowerChar(s[i])
  {
    seq(|s|, i requires 0 <= i < |s| => LowerChar(s[i]))
  }

  /** `hay.startsWith(needle)`. */
  predicate IsPrefix(needle: string, hay: string) {
    |needle| <= |hay| && hay[..|needle|] == needle
  }

  /** `hay.includes(needle)`: `needle` occurs at some position of `hay`. */
  predicate Contains(hay: string, needle: string)
    decreases |hay|
  {
    IsPrefix(needle, hay) || (|hay| > 0 && Contains(hay[1..], needle))
  }

  /** Case-insensitive search as the pages write it: `a.toLowerCase().includes(t.toLowerCase())`. */
  predicate ContainsIgnoreCase(hay: string, needle: string) {
    Contains(Lower(hay), Lower(needle))
  }

  /** A string never includes a longer one. */
  lemma {:induction false} ShorterNeverContains(hay: string, needle: string)
    requires |hay| < |needle|
    ensures !Contains(hay, needle)
  {
    if |hay| > 0 {
      ShorterNeverContains(hay[1..], needle);
    }
  }

  /** Every string includes the empty string, so an empty search term matches everything. */
  lemma EmptySearchMatches(hay: string)
    ensures Contains(hay, "")
    ensures ContainsIgnoreCase(hay, "")
  {
    assert IsPrefix("", hay);
    assert Lower("") == "";
    assert IsPrefix("", Lower(hay));
  }

  /** `needle` occurs in `hay` starting at position `i`. */
  predicate OccursAt(hay: string, needle: string, i: nat) {
    i + |needle| <= |hay| && hay[i..i + |needle|] == needle
  }

  /** `Contains` means what it says: `needle` occurs at some position of `hay`. */
  lemma {:induction false} ContainsAt(hay: string, needle: string)
    ensures Contains(hay, needle) <==> exists i: nat :: OccursAt(hay, needle, i)
  {
    if IsPrefix(needle, hay) {
      assert OccursAt(hay, needle, 0);
    } else {
      if exists i: nat :: OccursAt(hay, needle, i) {
        var i: nat :| OccursAt(hay, needle, i);
        assert i != 0;
        assert |hay| > 0;
        assert OccursAt(hay[1..], needle, i - 1) by {
          assert hay[1..][i - 1..i - 1 + |needle|] == hay[i..i + |needle|];
        }
      }
      if |hay| > 0 {
        ContainsAt(hay[1..], needle);
        if Contains(hay[1..], needle) {
          var i: nat :| OccursAt(hay[1..], needle, i);
          assert OccursAt(hay, needle, i + 1) by {
            assert hay[1..][i..i + |needle|] == hay[i + 1..i + 1 + |needle|];
          }
        }
      }
    }
  }

  /** The characters `String.prototype.trim` removes: white space and line terminators. */
  predicate IsSpace(c: char) {
    c == ' ' || '\t' <= c <= '\r' || c == '\U{00A0}' || c == '\U{1680}'
    || '\U{2000}' <= c <= '\U{200A}' || c == '\U{2028}' || c == '\U{2029}'
    || c == '\U{202F}' || c == '\U{205F}' || c == '\U{3000}' || c == '\U{FEFF}'
  }

  /** Neither end of `s` is white space. */
  predicate IsTrimmed(s: string) {
    |s| == 0 || (!IsSpace(s[0]) && !IsSpace(s[|s| - 1]))
  }

  function TrimStart(s: string): (r: string)
    ensures |r| <= |s| && r == s[|s| - |r|..]
    ensures |r| == 0 || !IsSpace(r[0])
    ensures forall i :: 0 <= i < |s| - |r| ==> IsSpace(s[i])
  {
    if |s| > 0 && IsSpace(s[0]) then TrimStart(s[1..]) else s
  }

  function TrimEnd(s: string): (r: string)
    ensures |r| <= |s| && r == s[..|r|]
    ensures |r| == 0 || !IsSpace(r[|r| - 1])
    ensures forall i :: |r| <= i < |s| ==> IsSpace(s[i])
  {
    if |s| > 0 && IsSpace(s[|s| - 1]) then TrimEnd(s[..|s| - 1]) else s
  }

  /** `r` sits in `s` at offset `k`, and everything of `s` before and after it is white space. */
  predicate MiddleSlice(s: string, r: string, k: int) {
    0 <= k <= |s| - |r| && r == s[k..k + |r|] &&
    (forall i :: 0 <= i < k ==> IsSpace(s[i])) &&
    (forall i :: k + |r| <= i < |s| ==> IsSpace(s[i]))
  }

  /**
    `s.trim()`: a middle slice of `s` with no white space at either end and
    only white space around it; `TrimUnique` shows no other slice has both
    properties.
  */
  function Trim(s: string): (r: string)
    ensures IsTrimmed(r)
    ensures |r| <= |s|
    ensures exists k :: MiddleSlice(s, r, k)
  {
    TrimBothEnds(s);
    TrimEnd(TrimStart(s))
  }

  /** Trimming the start and then the end leaves a middle slice of `s`. */
  lemma TrimBothEnds(s: string)
    ensures MiddleSlice(s, TrimEnd(TrimStart(s)), |s| - |TrimStart(s)|)
  {
    PrefixOfSuffix(s, TrimStart(s), TrimEnd(TrimStart(s)));
  }

  /** A blank-bounded prefix `r` of a blank-bounded suffix `a` of `s` is a middle slice of `s`. */
  lemma PrefixOfSuffix(s: string, a: string, r: string)
    requires |a| <= |s| && a == s[|s| - |a|..]
    requires |r| <= |a| && r == a[..|r|]
    requires forall i :: 0 <= i < |s| - |a| ==> IsSpace(s[i])
    requires forall i :: |r| <= i < |a| ==> IsSpace(a[i])
    ensures MiddleSlice(s, r, |s| - |a|)
  {
    var k := |s| - |a|;
    assert r == s[k..k + |r|];
    forall i | k + |r| <= i < |s|
      ensures IsSpace(s[i])
    {
      assert s[i] == a[i - k];
    }
  }

  /** Whatever is trimmed at both ends and surrounded only by white space in `s` is `s.trim()`. */
  lemma TrimUnique(s: string, t: string, k: int)
    requires IsTrimmed(t) && MiddleSlice(s, t, k)
    ensures t == Trim(s)
  {
    var r := Trim(s);
    var j :| MiddleSlice(s, r, j);
    if |t| > 0 && |r| > 0 {
      assert s[k] == t[0] && s[j] == r[0];
      assert k == j;
      assert s[k + |t| - 1] == t[|t| - 1] && s[j + |r| - 1] == r[|r| - 1];
      assert |t| == |r|;
    }
  }

  /** Trimming only removes characters: a character absent from `s` is absent from its trim. */
  lemma TrimKeepsAbsent(s: string, c: char)
    requires c !in s
    ensures c !in Trim(s)
  {
    var a := TrimStart(s);
    assert c !in a by {
      assert a == s[|s| - |a|..];
    }
    var b := TrimEnd(a);
    assert b == a[..|b|];
  }

  lemma TrimTrimmed(s: string)
    requires IsTrimmed(s)
    ensures Trim(s) == s
  {
  }

  /** One leading blank, as `join(", ")` leaves it after the comma, is removed again by `trim`. */
  lemma TrimAfterBlank(s: string)
    requires IsTrimmed(s)
    ensures Trim(" " + s) == s
  {
    assert (" " + s)[1..] == s;
  }

  /** `s.split(c)` for a one-character separator: never empty, as in JavaScript ("".split(",") is [""]). */
  function Split(s: string, c: char): (r: seq<string>)
    ensures |r| >= 1
    ensures forall i :: 0 <= i < |r| ==> c !in r[i]
  {
    if |s| == 0 then [""]
    else if s[0] == c then [""] + Split(s[1..], c)
    else
      var rest := Split(s[1..], c);
      [[s[0]] + rest[0]] + rest[1..]
  }

  /** `xs.join(sep)`. */
  function Join(xs: seq<string>, sep: string): string {
    if |xs| == 0 then ""
    else if |xs| == 1 then xs[0]
    else xs[0] + sep + Join(xs[1..], sep)
  }

  /** Joining a list that starts with `x` puts `x` and the separator before the rest. */
  lemma JoinHead(x: string, xs: seq<string>, sep: string)
    requires |xs| >= 1
    ensures Join([x] + xs, sep) == x + sep + Join(xs, sep)
  {
    assert ([x] + xs)[1..] == xs;
  }

  /** Prefixing the first element with a character prefixes the whole join with it. */
  lemma JoinGrowHead(ch: char, xs: seq<string>, sep: string)
    requires |xs| >= 1
    ensures Join([[ch] + xs[0]] + xs[1..], sep) == [ch] + Join(xs, sep)
  {
    if |xs| > 1 {
      JoinHead([ch] + xs[0], xs[1..], sep);
    }
  }

  /** Splitting at `c` and joining back with `c` gives the original text. */
  lemma {:induction false} JoinSplit(s: string, c: char)
    ensures Join(Split(s, c), [c]) == s
  {
    if |s| > 0 {
      JoinSplit(s[1..], c);
      var rest := Split(s[1..], c);
      if s[0] == c {
        JoinHead("", rest, [c]);
      } else {
        JoinGrowHead(s[0], rest, [c]);
      }
      assert s == [s[0]] + s[1..];
    }
  }

  /** A text without the separator splits into itself alone. */
  lemma {:induction false} SplitNone(s: string, c: char)
    requires c !in s
    ensures Split(s, c) == [s]
  {
    if |s| > 0 {
      SplitNone(s[1..], c);
      assert s == [s[0]] + s[1..];
    }
  }

  /** Splitting `a + [c] + b` where `a` has no separator yields `a` then the pieces of `b`. */
  lemma {:induction false} SplitAtFirst(a: string, b: string, c: char)
    requires c !in a
    ensures Split(a + [c] + b, c) == [a] + Split(b, c)
  {
    if |a| == 0 {
      assert a + [c] + b == [c] + b;
      assert ([c] + b)[1..] == b;
    } else {
      SplitAtFirst(a[1..], b, c);
      assert (a + [c] + b)[1..] == a[1..] + [c] + b;
      assert a == [a[0]] + a[1..];
    }
  }

  /** `" " + x` for each x: what every piece after the first looks like after `join(", ")` and `split(",")`. */
  function PrefixBlank(xs: seq<string>): (r: seq<string>)
    ensures |r| == |xs|
    ensures forall i :: 0 <= i < |xs| ==> r[i] == " " + xs[i]
  {
    Map(xs, (x: string) => " " + x)
  }

  /** Joining with ", " and splitting at "," leaves a blank in front of every element but the first. */
  lemma {:induction false} SplitJoinComma(xs: seq<string>)
    requires |xs| >= 1
    requires forall i :: 0 <= i < |xs| ==> ',' !in xs[i]
    ensures Split(Join(xs, ", "), ',') == [xs[0]] + PrefixBlank(xs[1..])
    decreases |xs|
  {
    if |xs| == 1 {
      SplitNone(xs[0], ',');
    } else {
      var ys := [" " + xs[1]] + xs[2..];
      assert ys[1..] == xs[2..];
      assert ',' !in " " + xs[1];
      assert Join(ys, ", ") == " " + Join(xs[1..], ", ") by {
        if |xs| == 2 {
        } else {
          assert xs[1..][1..] == xs[2..];
          assert Join(xs[1..], ", ") == xs[1] + ", " + Join(xs[2..], ", ");
        }
      }
      SplitJoinComma(ys);
      assert Join(xs, ", ") == xs[0] + [','] + (" " + Join(xs[1..], ", "));
      SplitAtFirst(xs[0], " " + Join(xs[1..], ", "), ',');
      assert PrefixBlank(xs[1..]) == [" " + xs[1]] + PrefixBlank(xs[2..]);
    }
  }

  predicate NonEmpty(s: string) {
    |s| > 0
  }

  /** A list element that survives a `join(", ")` / parse round trip. */
  predicate Listable(x: string) {
    x != "" && IsTrimmed(x) && ',' !in x
  }

  /**
    The comma-list parse of the admin forms:
    `text.split(",").map((x) => x.trim()).filter(Boolean)`.
  */
  function ParseList(text: string): (r: seq<string>)
    ensures forall i :: 0 <= i < |r| ==> Listable(r[i])
  {
    var pieces := Split(text, ',');
    var parts := Map(pieces, Trim);
    forall i | 0 <= i < |parts| ensures ',' !in parts[i] {
      TrimKeepsAbsent(pieces[i], ',');
    }
    Filter(parts, NonEmpty)
  }

  lemma SplitPair(a: string, b: string, c: char)
    requires c !in a && c !in b
    ensures Split(a + [c] + b, c) == [a, b]
  {
    SplitAtFirst(a, b, c);
    SplitNone(b, c);
  }

  /** When the comma-separated pieces of `text` are already clean, parsing keeps exactly them. */
  lemma ParseOfListablePieces(text: string, xs: seq<string>)
    requires Split(text, ',') == xs
    requires forall i :: 0 <= i < |xs| ==> Listable(xs[i])
    ensures ParseList(text) == xs
  {
    forall i | 0 <= i < |xs| ensures Trim(xs[i]) == xs[i] {
      TrimTrimmed(xs[i]);
    }
    MapTrimEach(xs, xs);
    FilterAll(xs, NonEmpty);
  }

  /** A comma inside an entry splits it: `a,b` parses as the two entries `a` and `b`. */
  lemma ParseCommaPair(a: string, b: string)
    requires Listable(a) && Listable(b)
    ensures ParseList(a + [','] + b) == [a, b]
  {
    SplitPair(a, b, ',');
    ParseOfListablePieces(a + [','] + b, [a, b]);
  }

  /** The `i`-th piece of `SplitJoinComma`, trimmed, is the `i`-th element again. */
  lemma {:induction false} TrimPiece(xs: seq<string>, i: nat)
    requires i < |xs|
    requires forall j :: 0 <= j < |xs| ==> Listable(xs[j])
    ensures Trim(([xs[0]] + PrefixBlank(xs[1..]))[i]) == xs[i]
  {
    if i == 0 {
      TrimTrimmed(xs[0]);
    } else {
      assert ([xs[0]] + PrefixBlank(xs[1..]))[i] == " " + xs[i];
      TrimAfterBlank(xs[i]);
    }
  }

  /** Trimming the pieces of `SplitJoinComma` restores the original elements. */
  lemma {:induction false} TrimPieces(xs: seq<string>)
    requires |xs| >= 1
    requires forall i :: 0 <= i < |xs| ==> Listable(xs[i])
    ensures Map([xs[0]] + PrefixBlank(xs[1..]), Trim) == xs
  {
    var pieces := [xs[0]] + PrefixBlank(xs[1..]);
    forall i | 0 <= i < |xs| ensures Trim(pieces[i]) == xs[i] {
      TrimPiece(xs, i);
    }
    MapTrimEach(pieces, xs);
  }

  lemma {:induction false} MapTrimEach(pieces: seq<string>, xs: seq<string>)
    requires |xs| == |pieces|
    requires forall i :: 0 <= i < |xs| ==> Trim(pieces[i]) == xs[i]
    ensures Map(pieces, Trim) == xs
  {
  }

  /** An empty text parses to no entries. */
  lemma ParseEmpty()
    ensures ParseList("") == []
  {
    assert Split("", ',') == [""];
    assert Trim("") == "";
    assert Map([""], Trim) == [""];
    assert [""][..0] == [];
  }

  /** A non-empty list of clean entries, joined and parsed, comes back. */
  lemma ParseJoinNonEmpty(xs: seq<string>)
    requires |xs| >= 1
    requires forall i :: 0 <= i < |xs| ==> Listable(xs[i])
    ensures ParseList(Join(xs, ", ")) == xs
  {
    SplitJoinComma(xs);
    TrimPieces(xs);
    FilterAll(xs, NonEmpty);
  }

  /** `ParseList(xs.join(", ")) == xs` for lists of non-empty, trimmed, comma-free elements. */
  lemma ParseJoinRoundTrip(xs: seq<string>)
    requires forall i :: 0 <= i < |xs| ==> Listable(xs[i])
    ensures ParseList(Join(xs, ", ")) == xs
  {
    if |xs| == 0 {
      assert Join(xs, ", ") == "";
      ParseEmpty();
    } else {
      ParseJoinNonEmpty(xs);
    }
  }

  /** Every parsed list is a fixed point of the edit-then-save round trip. */
  lemma ParseIsStable(text: string)
    ensures ParseList(Join(ParseList(text), ", ")) == ParseList(text)
  {
    ParseJoinRoundTrip(ParseList(text));
  }

  function Digit(d: nat): char
    requires d < 10
  {
    ('0' as int + d) as char
  }

  predicate IsDigit(c: char) {
    '0' <= c <= '9'
  }

  /** The decimal text of a natural number, as `${n}` renders it. */
  function NatToString(n: nat): (r: string)
    ensures |r| >= 1
    ensures forall i :: 0 <= i < |r| ==> IsDigit(r[i])
  {
    if n < 10 then [Digit(n)] else NatToString(n / 10) + [Digit(n % 10)]
  }

  /** The value of a string of decimal digits. */
  function DigitsValue(s: string): nat
    requires forall i :: 0 <= i < |s| ==> IsDigit(s[i])
  {
    if |s| == 0 then 0
    else
      assert IsDigit(s[|s| - 1]);
      DigitsValue(s[..|s| - 1]) * 10 + (s[|s| - 1] as int - '0' as int)
  }

  /** Reading back the digits of `NatToString(n)` gives `n`. */
  lemma {:induction false} NatToStringValue(n: nat)
    ensures DigitsValue(NatToString(n)) == n
  {
    if n >= 10 {
      NatToStringValue(n / 10);
      var s := NatToString(n);
      assert s[..|s| - 1] == NatToString(n / 10);
    }
  }

  /** `${i}` for an integer. */
  function IntToString(i: int): (r: string)
    ensures |r| >= 1
    ensures (r[0] == '-') <==> i < 0
    ensures forall k :: 1 <= k < |r| ==> IsDigit(r[k])
  {
    if i < 0 then "-" + NatToString(-i) else NatToString(i)
  }

  /** A list shown as a row of badges: its first entries and, when it is longer, a "+n more" badge. */
  datatype BadgeRow = BadgeRow(shown: seq<string>, more: Option<string>)

  function MoreBadge(hidden: nat): string {
    "+" + NatToString(hidden) + " more"
  }

  /** `xs.slice(0, k)` as badges, then `+{xs.length - k} more` when `xs.length > k`. */
  function Truncate(xs: seq<string>, k: nat): (r: BadgeRow)
    ensures |r.shown| == Min(k, |xs|) && r.shown == xs[..|r.shown|]
    ensures r.more.Some? <==> |xs| > k
    ensures r.more.Some? ==> r.more.value == MoreBadge(|xs| - k)
  {
    BadgeRow(Take(xs, k), if |xs| > k then Some(MoreBadge(|xs| - k)) else None)
  }

  /** The badges account for the whole list: the number in the "+n more" badge is the count left out. */
  lemma TruncateAccountsForAll(xs: seq<string>, k: nat)
    ensures var r := Truncate(xs, k);
      r.more.Some? ==>
        && |r.more.value| > 6
        && (forall i :: 1 <= i < |r.more.value| - 5 ==> IsDigit(r.more.value[i]))
        && |r.shown| + DigitsValue(r.more.value[1..|r.more.value| - 5]) == |xs|
    ensures Truncate(xs, k).more.None? ==> Truncate(xs, k).shown == xs
  {
    var r := Truncate(xs, k);
    if r.more.Some? {
      var digits := NatToString(|xs| - k);
      assert r.more.value[1..|r.more.value| - 5] == digits;
      NatToStringValue(|xs| - k);
    }
  }
}
