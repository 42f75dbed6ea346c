/** The string operations the assistant relies on: `toLowerCase` (ASCII
    letters only), `includes`, and `split` on a separator character class. */
module Text {
  import opened Seqs

  function LowerChar(c: char): char {
    if 'A' <= c <= 'Z' then (c as int + 32) as char else c
  }

  /** `String.prototype.toLowerCase` restricted to ASCII letters. */
  function Lower(s: string): (r: string)
    ensures |r| == |s|
    ensures forall i :: 0 <= i < |s| ==> r[i] == LowerChar(s[i])
  {
    seq(|s|, i requires 0 <= i < |s| => LowerChar(s[i]))
  }

  /** `needle` occurs in `hay` at position `i`. */
  ghost predicate OccursAt(hay: string, needle: string, i: int) {
    0 <= i && i + |needle| <= |hay| && hay[i..i + |needle|] == needle
  }

  /** `String.prototype.includes`: the empty needle occurs in every string. */
  function Contains(hay: string, needle: string): (r: bool)
    ensures r <==> exists i :: OccursAt(hay, needle, i)
    decreases |hay|
  {
    if |needle| > |hay| then false
    else if needle <= hay then
      assert OccursAt(hay, needle, 0);
      true
    else
      OccursLater(hay, needle);
      Contains(hay[1..], needle)
  }

  /** When `needle` is not a prefix of `hay`, its occurrences are those in `hay[1..]`. */
  lemma OccursLater(hay: string, needle: string)
    requires hay != [] && !(needle <= hay)
    ensures (exists i :: OccursAt(hay, needle, i)) <==> (exists i :: OccursAt(hay[1..], needle, i))
  {
    forall i | OccursAt(hay, needle, i) ensures i > 0 && OccursAt(hay[1..], needle, i - 1) {
      assert hay[1..][i - 1..i - 1 + |needle|] == hay[i..i + |needle|];
    }
    forall i | OccursAt(hay[1..], needle, i) ensures OccursAt(hay, needle, i + 1) {
      assert hay[1..][i..i + |needle|] == hay[i + 1..i + 1 + |needle|];
    }
  }

  lemma ContainsEmpty(hay: string)
    ensures Contains(hay, "")
  {
    assert OccursAt(hay, "", 0);
  }

  /** A string containing `mid` contains everything `mid` contains. */
  lemma ContainsTransitive(hay: string, mid: string, needle: string)
    requires Contains(hay, mid) && Contains(mid, needle)
    ensures Contains(hay, needle)
  {
    var i :| OccursAt(hay, mid, i);
    var j :| OccursAt(mid, needle, j);
    forall k | 0 <= k < |needle| ensures hay[i + j + k] == needle[k] {
      assert hay[i..i + |mid|][j + k] == hay[i + j + k];
      assert mid[j..j + |needle|][k] == mid[j + k];
    }
    assert hay[i + j..i + j + |needle|] == needle;
    assert OccursAt(hay, needle, i + j);
  }

  lemma ContainedInEmpty(needle: string)
    ensures Contains("", needle) <==> needle == ""
  {
    if needle == "" {
      ContainsEmpty("");
    }
  }

  /** The characters that JavaScript's `\s` matches. */
  predicate IsWhitespace(c: char) {
    var n := c as int;
    (0x09 <= n <= 0x0D) || n == 0x20 || n == 0xA0 || n == 0x1680 || (0x2000 <= n <= 0x200A)
    || n == 0x2028 || n == 0x2029 || n == 0x202F || n == 0x205F || n == 0x3000 || n == 0xFEFF
  }

  predicate IsSpace(c: char) {
    c == ' '
  }

  /** `String.prototype.split` on every character satisfying `isSep`: always at
      least one piece, and an empty piece wherever two separators touch or a
      separator begins or ends the string. */
  function Split(s: string, isSep: char -> bool): (r: seq<string>)
    ensures |r| == |Filter(s, isSep)| + 1
  {
    if s == [] then [""]
    else
      var rest := Split(s[1..], isSep);
      if isSep(s[0]) then [""] + rest
      else [[s[0]] + rest[0]] + rest[1..]
  }

  /** A string without separators is a single piece. */
  lemma {:induction false} SplitWithoutSeparator(s: string, isSep: char -> bool)
    requires forall i :: 0 <= i < |s| ==> !isSep(s[i])
    ensures Split(s, isSep) == [s]
  {
    if s != [] {
      SplitWithoutSeparator(s[1..], isSep);
      assert s == [s[0]] + s[1..];
    }
  }

  lemma {:induction false} SplitPiecesHaveNoSeparator(s: string, isSep: char -> bool, k: nat)
    requires k < |Split(s, isSep)|
    ensures forall c :: c in Split(s, isSep)[k] ==> !isSep(c)
  {
    if s != [] {
      var rest := Split(s[1..], isSep);
      if isSep(s[0]) {
        assert Split(s, isSep) == [""] + rest;
        if k > 0 {
          SplitPiecesHaveNoSeparator(s[1..], isSep, k - 1);
          assert Split(s, isSep)[k] == rest[k - 1];
        }
      } else {
        var first := [s[0]] + rest[0];
        assert Split(s, isSep) == [first] + rest[1..];
        SplitPiecesHaveNoSeparator(s[1..], isSep, k);
        if k == 0 {
          forall c | c in first ensures !isSep(c) {
            if c != s[0] {
              assert c in rest[0];
            }
          }
        } else {
          assert Split(s, isSep)[k] == rest[k];
        }
      }
    }
  }

  /** Puts the separators back between the pieces, inverting `Split`. */
  function JoinWith(pieces: seq<string>, seps: string): (r: string)
    requires |pieces| == |seps| + 1
  {
    if |seps| == 0 then pieces[0]
    else pieces[0] + [seps[0]] + JoinWith(pieces[1..], seps[1..])
  }

  /** Prefixing the first piece prefixes the joined string. */
  lemma JoinWithPrefixFirst(pieces: seq<string>, seps: string, c: char)
    requires |pieces| == |seps| + 1
    ensures JoinWith([[c] + pieces[0]] + pieces[1..], seps) == [c] + JoinWith(pieces, seps)
  {
    var moved := [[c] + pieces[0]] + pieces[1..];
    assert moved[0] == [c] + pieces[0] && moved[1..] == pieces[1..];
    if |seps| > 0 {
      calc {
        JoinWith(moved, seps);
        moved[0] + [seps[0]] + JoinWith(moved[1..], seps[1..]);
        [c] + (pieces[0] + [seps[0]] + JoinWith(pieces[1..], seps[1..]));
      }
    }
  }

  /** A separator in front adds an empty piece and the separator itself. */
  lemma JoinWithEmptyFirst(pieces: seq<string>, seps: string, c: char)
    requires |pieces| == |seps| + 1
    ensures JoinWith([""] + pieces, [c] + seps) == [c] + JoinWith(pieces, seps)
  {
    var more := [""] + pieces;
    var seps' := [c] + seps;
    assert more[0] == "" && more[1..] == pieces;
    assert seps'[0] == c && seps'[1..] == seps;
  }

  lemma {:induction false} SplitJoin(s: string, isSep: char -> bool)
    ensures JoinWith(Split(s, isSep), Filter(s, isSep)) == s
  {
    if s != [] {
      var rest := Split(s[1..], isSep);
      var seps := Filter(s[1..], isSep);
      SplitJoin(s[1..], isSep);
      if isSep(s[0]) {
        assert Filter(s, isSep) == [s[0]] + seps;
        assert Split(s, isSep) == [""] + rest;
        JoinWithEmptyFirst(rest, seps, s[0]);
      } else {
        assert Filter(s, isSep) == seps;
        assert Split(s, isSep) == [[s[0]] + rest[0]] + rest[1..];
        JoinWithPrefixFirst(rest, seps, s[0]);
      }
      assert s == [s[0]] + s[1..];
    }
  }

  /** Two adjacent separators somewhere in `s`. */
  ghost predicate HasAdjacentSeparators(s: string, isSep: char -> bool) {
    exists i :: 0 <= i < |s| - 1 && isSep(s[i]) && isSep(s[i + 1])
  }

  lemma {:induction false} SplitFirstPiece(s: string, isSep: char -> bool)
    ensures Split(s, isSep)[0] == "" <==> s == [] || isSep(s[0])
  {
  }

  lemma {:induction false} SplitLaterPieces(s: string, isSep: char -> bool)
    ensures "" in Split(s, isSep)[1..] <==> (s != [] && isSep(s[|s| - 1])) || HasAdjacentSeparators(s, isSep)
  {
    if s != [] {
      var u := s[1..];
      var rest := Split(u, isSep);
      SplitLaterPieces(u, isSep);
      SplitFirstPiece(u, isSep);
      assert rest == [rest[0]] + rest[1..];
      if HasAdjacentSeparators(u, isSep) {
        var i :| 0 <= i < |u| - 1 && isSep(u[i]) && isSep(u[i + 1]);
        assert isSep(s[i + 1]) && isSep(s[i + 2]);
      }
      if HasAdjacentSeparators(s, isSep) {
        var i :| 0 <= i < |s| - 1 && isSep(s[i]) && isSep(s[i + 1]);
        if i > 0 {
          assert isSep(u[i - 1]) && isSep(u[i]);
        }
      }
      if u != [] {
        assert s[|s| - 1] == u[|u| - 1];
      }
    }
  }

  /** `split(" ")` yields an empty word exactly for the empty string, a leading
      or trailing separator, or two separators in a row. */
  lemma EmptyPiece(s: string, isSep: char -> bool)
    ensures "" in Split(s, isSep) <==>
      s == [] || isSep(s[0]) || isSep(s[|s| - 1]) || HasAdjacentSeparators(s, isSep)
  {
    var r := Split(s, isSep);
    SplitFirstPiece(s, isSep);
    SplitLaterPieces(s, isSep);
    assert r == [r[0]] + r[1..];
  }

  /** JavaScript's `length`: the number of UTF-16 code units, so a character
      above U+FFFF counts twice. */
  function Utf16Length(s: string): (n: nat)
    ensures |s| <= n <= 2 * |s|
  {
    if s == [] then 0 else (if s[0] as int > 0xFFFF then 2 else 1) + Utf16Length(s[1..])
  }

  lemma {:induction false} Utf16LengthAppend(a: string, b: string)
    ensures Utf16Length(a + b) == Utf16Length(a) + Utf16Length(b)
  {
    if a == [] {
      assert a + b == b;
    } else {
      assert (a + b)[0] == a[0] && (a + b)[1..] == a[1..] + b;
      Utf16LengthAppend(a[1..], b);
    }
  }

  /** Lowering changes only ASCII letters, so the UTF-16 length is kept. */
  lemma {:induction false} LowerKeepsUtf16Length(s: string)
    ensures Utf16Length(Lower(s)) == Utf16Length(s)
  {
    if s != [] {
      assert Lower(s)[1..] == Lower(s[1..]);
      LowerKeepsUtf16Length(s[1..]);
    }
  }

  /** `word.length > 2`, in UTF-16 code units. */
  predicate IsLong(word: string) {
    Utf16Length(word) > 2
  }

  /** Two emoji are two characters but four UTF-16 code units, so they make a
      long word, while two ASCII letters do not. */
  lemma AstralPairIsLong()
    ensures |"\U{1F600}\U{1F600}"| == 2 && IsLong("\U{1F600}\U{1F600}")
    ensures !IsLong("ok")
  {
    assert Utf16Length("\U{1F600}") == 2;
    assert "\U{1F600}\U{1F600}"[1..] == "\U{1F600}";
  }

  /** `String.prototype.split` on a regular expression matching one or more
      separators: a run of separators cuts once, and a run at either end still
      leaves an empty piece there. */
  function SplitRuns(s: string, isSep: char -> bool): (r: seq<string>)
    ensures |r| >= 1
    ensures s == [] || isSep(s[0]) ==> r[0] == ""
  {
    if s == [] then [""]
    else
      var rest := SplitRuns(s[1..], isSep);
      if isSep(s[0]) then
        if s[1..] != [] && isSep(s[1]) then rest else [""] + rest
      else [[s[0]] + rest[0]] + rest[1..]
  }

  /** Splitting at every separator and splitting at every run of them give the
      same first piece, and the same later pieces once empty ones are dropped. */
  lemma {:induction false} SplitRunsAgree(s: string, isSep: char -> bool, p: string -> bool)
    requires !p("")
    ensures Split(s, isSep)[0] == SplitRuns(s, isSep)[0]
    ensures Filter(Split(s, isSep)[1..], p) == Filter(SplitRuns(s, isSep)[1..], p)
  {
    if s != [] {
      var a := Split(s[1..], isSep);
      var b := SplitRuns(s[1..], isSep);
      SplitRunsAgree(s[1..], isSep, p);
      if isSep(s[0]) {
        assert Split(s, isSep)[1..] == a;
        assert a == [a[0]] + a[1..];
        FilterAppend([a[0]], a[1..], p);
        if s[1..] != [] && isSep(s[1]) {
          SplitFirstPiece(s[1..], isSep);
          assert a[0] == "";
        } else {
          assert SplitRuns(s, isSep)[1..] == b;
          assert b == [b[0]] + b[1..];
          FilterAppend([b[0]], b[1..], p);
        }
      } else {
        assert Split(s, isSep)[1..] == a[1..];
        assert SplitRuns(s, isSep)[1..] == b[1..];
      }
    }
  }

  /** The two splits keep the same pieces that `p` accepts, when `p` rejects the empty piece. */
  lemma SplitRunsFilter(s: string, isSep: char -> bool, p: string -> bool)
    requires !p("")
    ensures Filter(Split(s, isSep), p) == Filter(SplitRuns(s, isSep), p)
  {
    var a := Split(s, isSep);
    var b := SplitRuns(s, isSep);
    SplitRunsAgree(s, isSep, p);
    assert a == [a[0]] + a[1..];
    assert b == [b[0]] + b[1..];
    FilterAppend([a[0]], a[1..], p);
    FilterAppend([b[0]], b[1..], p);
  }

  /** `s.split(/\s+/).filter((word) => word.length > 2)`, computed by splitting
      at every whitespace character (see `LongWordsOfRuns`). */
  function LongWords(s: string): (r: seq<string>)
    ensures forall w :: w in r ==> Utf16Length(w) > 2
  {
    Filter(Split(s, IsWhitespace), IsLong)
  }

  /** Splitting at every whitespace character instead of at every run of them
      only adds empty pieces, which the length filter removes. */
  lemma LongWordsOfRuns(s: string)
    ensures LongWords(s) == Filter(SplitRuns(s, IsWhitespace), IsLong)
  {
    SplitRunsFilter(s, IsWhitespace, IsLong);
  }

  lemma NoLongWordsInShort(s: string)
    requires Utf16Length(s) <= 2
    ensures LongWords(s) == []
  {
    var pieces := Split(s, IsWhitespace);
    SplitJoin(s, IsWhitespace);
    forall w | w in pieces ensures !IsLong(w) {
      PieceLength(pieces, Filter(s, IsWhitespace), w);
    }
    FilterDropsAll(pieces, IsLong);
  }

  lemma {:induction false} PieceLength(pieces: seq<string>, seps: string, w: string)
    requires |pieces| == |seps| + 1 && w in pieces
    ensures Utf16Length(w) <= Utf16Length(JoinWith(pieces, seps))
  {
    if |seps| > 0 {
      var rest := JoinWith(pieces[1..], seps[1..]);
      Utf16LengthAppend(pieces[0] + [seps[0]], rest);
      Utf16LengthAppend(pieces[0], [seps[0]]);
      if w != pieces[0] {
        PieceLength(pieces[1..], seps[1..], w);
      }
    }
  }
}
