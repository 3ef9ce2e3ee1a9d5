/**
 * The string operations the bulk loader and the controllers rely on:
 * trimming, ASCII case mapping, prefix tests and splitting on separator
 * characters, with the facts about them the rest of the model uses.
 */
module Text {

  /** The ASCII whitespace that `String.prototype.trim` removes. */
  predicate IsSpace(c: char) {
    c == ' ' || c == '\t' || c == '\n' || c == '\r' || c == '\U{B}' || c == '\U{C}'
  }

  predicate AllSpace(s: string) {
    forall i :: 0 <= i < |s| ==> IsSpace(s[i])
  }

  /** Number of whitespace characters at the start of `s`. */
  function LeadingSpaces(s: string): (k: nat)
    ensures k <= |s|
    ensures AllSpace(s[..k])
    ensures k < |s| ==> !IsSpace(s[k])
  {
    if |s| == 0 || !IsSpace(s[0]) then 0
    else
      var k := 1 + LeadingSpaces(s[1..]);
      assert s[..k] == [s[0]] + s[1..][..k - 1];
      k
  }

  /** Number of whitespace characters at the end of `s`. */
  function TrailingSpaces(s: string): (k: nat)
    ensures k <= |s|
    ensures AllSpace(s[|s| - k..])
    ensures k < |s| ==> !IsSpace(s[|s| - k - 1])
  {
    if |s| == 0 || !IsSpace(s[|s| - 1]) then 0
    else
      var p := s[..|s| - 1];
      var k := 1 + TrailingSpaces(p);
      assert AllSpace(s[|s| - k..]) by {
        var tail := s[|s| - k..];
        forall i | 0 <= i < k ensures IsSpace(tail[i]) {
          if i < k - 1 {
            assert tail[i] == p[|p| - (k - 1)..][i];
          }
        }
      }
      k
  }

  /** `String.prototype.trim` restricted to ASCII whitespace. */
  function Trim(s: string): (r: string)
    ensures |r| <= |s|
    ensures |r| > 0 ==> !IsSpace(r[0]) && !IsSpace(r[|r| - 1])
    ensures r == "" <==> AllSpace(s)
    ensures exists i, j :: 0 <= i <= j <= |s| && r == s[i..j] && AllSpace(s[..i]) && AllSpace(s[j..])
  {
    var i := LeadingSpaces(s);
    var u := s[i..];
    var t := TrailingSpaces(u);
    assert |u| == t ==> AllSpace(s) by {
      if |u| == t {
        assert u[|u| - t..] == u;
        assert s[..i] == s;
      }
    }
    var j := |s| - t;
    assert u[..|u| - t] == s[i..j];
    assert u[|u| - t..] == s[j..];
    u[..|u| - t]
  }

  /** A string without outer whitespace is its own trim. */
  lemma TrimOfTrimmed(s: string)
    requires |s| > 0 ==> !IsSpace(s[0]) && !IsSpace(s[|s| - 1])
    ensures Trim(s) == s
  {
    if |s| > 0 {
      assert LeadingSpaces(s) == 0;
      assert s[0..] == s;
      assert TrailingSpaces(s) == 0;
    }
  }

  /** Trimming is idempotent. */
  lemma TrimIdempotent(s: string)
    ensures Trim(Trim(s)) == Trim(s)
  {
    TrimOfTrimmed(Trim(s));
  }

  function LowerChar(c: char): char {
    if 'A' <= c <= 'Z' then (c as int + 32) as char else c
  }

  function UpperChar(c: char): char {
    if 'a' <= c <= 'z' then (c as int - 32) as char else c
  }

  /** `toLowerCase` on ASCII letters; other characters are kept. */
  function ToLower(s: string): (r: string)
    ensures |r| == |s|
    ensures forall i :: 0 <= i < |s| ==> r[i] == LowerChar(s[i])
  {
    seq(|s|, i requires 0 <= i < |s| => LowerChar(s[i]))
  }

  /** `toUpperCase` on ASCII letters; other characters are kept. */
  function ToUpper(s: string): (r: string)
    ensures |r| == |s|
    ensures forall i :: 0 <= i < |s| ==> r[i] == UpperChar(s[i])
  {
    seq(|s|, i requires 0 <= i < |s| => UpperChar(s[i]))
  }

  /** Upper-casing twice is upper-casing once. */
  lemma ToUpperIdempotent(s: string)
    ensures ToUpper(ToUpper(s)) == ToUpper(s)
  {
    var u := ToUpper(s);
    forall i | 0 <= i < |s|
      ensures ToUpper(u)[i] == u[i]
    {
      assert u[i] == UpperChar(s[i]);
    }
  }

  predicate StartsWith(s: string, prefix: string) {
    |prefix| <= |s| && s[..|prefix|] == prefix
  }

  predicate IsDigit(c: char) {
    '0' <= c <= '9'
  }

  /** Number of characters of `s` that satisfy `sep`. */
  function CountSep(s: string, sep: char -> bool): nat {
    if |s| == 0 then 0
    else (if sep(s[0]) then 1 else 0) + CountSep(s[1..], sep)
  }

  /** The characters of `s` that satisfy `sep`, in order. */
  function Seps(s: string, sep: char -> bool): (r: string)
    ensures |r| == CountSep(s, sep)
  {
    if |s| == 0 then ""
    else (if sep(s[0]) then [s[0]] else "") + Seps(s[1..], sep)
  }

  /** No character of `s` is a separator. */
  predicate Free(s: string, sep: char -> bool) {
    forall k :: 0 <= k < |s| ==> !sep(s[k])
  }

  /**
   * `s.split(re)` for a regular expression matching exactly one separator
   * character: the pieces between consecutive separators.
   */
  function Split(s: string, sep: char -> bool): (r: seq<string>)
    ensures |r| == CountSep(s, sep) + 1
    ensures forall i :: 0 <= i < |r| ==> Free(r[i], sep)
  {
    if |s| == 0 then [""]
    else
      var rest := Split(s[1..], sep);
      if sep(s[0]) then [""] + rest
      else [[s[0]] + rest[0]] + rest[1..]
  }

  /** Puts the separators back between the pieces. */
  function Join(pieces: seq<string>, seps: string): string
    requires |pieces| == |seps| + 1
  {
    if |seps| == 0 then pieces[0]
    else pieces[0] + [seps[0]] + Join(pieces[1..], seps[1..])
  }

  /** Splitting loses nothing: the pieces and the separators rebuild the input. */
  lemma {:induction false} SplitJoin(s: string, sep: char -> bool)
    ensures Join(Split(s, sep), Seps(s, sep)) == s
    decreases |s|
  {
    if |s| > 0 {
      var rest := Split(s[1..], sep);
      SplitJoin(s[1..], sep);
      if sep(s[0]) {
        assert Split(s, sep) == [""] + rest;
        assert Seps(s, sep) == [s[0]] + Seps(s[1..], sep);
        assert ([""] + rest)[1..] == rest;
        assert s == [s[0]] + s[1..];
      } else {
        var rs := Seps(s[1..], sep);
        assert Seps(s, sep) == rs;
        if |rs| == 0 {
          assert Join(Split(s, sep), rs) == [s[0]] + rest[0];
          assert s == [s[0]] + s[1..];
        } else {
          var pieces := [[s[0]] + rest[0]] + rest[1..];
          assert pieces[1..] == rest[1..];
          assert Join(rest, rs) == rest[0] + [rs[0]] + Join(rest[1..], rs[1..]);
          assert s == [s[0]] + s[1..];
        }
      }
    }
  }

  /** A separator-free string is one piece. */
  lemma {:induction false} SplitFree(s: string, sep: char -> bool)
    requires Free(s, sep)
    ensures Split(s, sep) == [s]
    decreases |s|
  {
    if |s| > 0 {
      SplitFree(s[1..], sep);
      assert [s[0]] + s[1..] == s;
    }
  }

  /** Drops one trailing carriage return. */
  function DropCr(s: string): (r: string)
    ensures s == r || s == r + "\r"
  {
    if |s| > 0 && s[|s| - 1] == '\r' then s[..|s| - 1] else s
  }

  /** The line feed, the separator of `text.split(/\r?\n/)`. */
  predicate IsLf(c: char) {
    c == '\n'
  }

  /** The pieces between line feeds, each but the last without the carriage return that ends it. */
  function Dropped(pieces: seq<string>): (r: seq<string>)
    ensures |r| == |pieces|
  {
    seq(|pieces|, i requires 0 <= i < |pieces| => if i < |pieces| - 1 then DropCr(pieces[i]) else pieces[i])
  }

  /**
   * `text.split(/\r?\n/)`: the pieces between line feeds, where a carriage
   * return right before a line feed belongs to the line break. The last
   * piece is not followed by a line feed and keeps a final carriage return.
   */
  function SplitLines(text: string): (r: seq<string>)
    ensures |r| == CountSep(text, IsLf) + 1
    ensures forall i :: 0 <= i < |r| ==> Free(r[i], IsLf)
  {
    var pieces := Split(text, IsLf);
    var r := Dropped(pieces);
    forall i | 0 <= i < |r|
      ensures Free(r[i], IsLf)
    {
      assert Free(pieces[i], IsLf);
    }
    r
  }

  /** Puts a line break after each line but the last: `\r\n` where `crs` says so, `\n` otherwise. */
  function JoinLines(lines: seq<string>, crs: seq<bool>): string
    requires |lines| == |crs| + 1
  {
    if |crs| == 0 then lines[0]
    else lines[0] + (if crs[0] then "\r\n" else "\n") + JoinLines(lines[1..], crs[1..])
  }

  /** The separators `Seps` collects are separators. */
  lemma {:induction false} SepsAreSeps(s: string, sep: char -> bool)
    ensures forall k :: 0 <= k < |Seps(s, sep)| ==> sep(Seps(s, sep)[k])
    decreases |s|
  {
    if |s| > 0 {
      SepsAreSeps(s[1..], sep);
    }
  }

  /** A line with its carriage return dropped, followed by the break it lost, is the line followed by a line feed. */
  lemma LineBreakRestored(p: string)
    ensures DropCr(p) + (if DropCr(p) != p then "\r\n" else "\n") == p + "\n"
  {
    if DropCr(p) != p {
      assert DropCr(p) + "\r\n" == (DropCr(p) + "\r") + "\n";
    }
  }

  /** Pieces joined by line feeds are their dropped forms joined by the line breaks they lost. */
  lemma {:induction false} JoinDropped(pieces: seq<string>, seps: string)
    requires |pieces| == |seps| + 1
    requires forall k :: 0 <= k < |seps| ==> seps[k] == '\n'
    ensures Join(pieces, seps) == JoinLines(Dropped(pieces), seq(|seps|, i requires 0 <= i < |seps| => DropCr(pieces[i]) != pieces[i]))
    decreases |seps|
  {
    var crs := seq(|seps|, i requires 0 <= i < |seps| => DropCr(pieces[i]) != pieces[i]);
    if |seps| > 0 {
      var tail := pieces[1..];
      var crsTail := seq(|seps| - 1, i requires 0 <= i < |seps| - 1 => DropCr(tail[i]) != tail[i]);
      JoinDropped(tail, seps[1..]);
      assert crs[1..] == crsTail;
      assert Dropped(pieces)[1..] == Dropped(tail);
      var p := pieces[0];
      var d := DropCr(p);
      assert Dropped(pieces)[0] == d;
      LineBreakRestored(p);
      assert [seps[0]] == "\n";
      calc {
        Join(pieces, seps);
        p + [seps[0]] + Join(tail, seps[1..]);
        d + (if crs[0] then "\r\n" else "\n") + JoinLines(Dropped(tail), crsTail);
        JoinLines(Dropped(pieces), crs);
      }
    }
  }

  /** Splitting into lines loses nothing but the line breaks: putting them back rebuilds the text. */
  lemma SplitLinesJoin(text: string)
    ensures exists crs :: |crs| + 1 == |SplitLines(text)| && JoinLines(SplitLines(text), crs) == text
  {
    var pieces := Split(text, IsLf);
    var seps := Seps(text, IsLf);
    SplitJoin(text, IsLf);
    SepsAreSeps(text, IsLf);
    JoinDropped(pieces, seps);
    var crs := seq(|seps|, i requires 0 <= i < |seps| => DropCr(pieces[i]) != pieces[i]);
    assert JoinLines(SplitLines(text), crs) == text;
  }

  /** `lines.filter(l => l.trim().length)`: the lines that are not blank. */
  function NonBlank(lines: seq<string>): (r: seq<string>)
    ensures |r| <= |lines|
    ensures forall i :: 0 <= i < |r| ==> !AllSpace(r[i])
    ensures forall l :: l in lines && !AllSpace(l) ==> l in r
    ensures forall l :: l in r ==> l in lines
  {
    if |lines| == 0 then []
    else if Trim(lines[0]) == "" then NonBlank(lines[1..])
    else [lines[0]] + NonBlank(lines[1..])
  }

  /** One line is kept exactly when it is not blank. */
  lemma NonBlankOne(l: string)
    ensures NonBlank([l]) == if AllSpace(l) then [] else [l]
  {
    assert [l][1..] == [];
  }

  /** Filtering keeps order and multiplicity: it distributes over concatenation. */
  lemma {:induction false} NonBlankAppend(a: seq<string>, b: seq<string>)
    ensures NonBlank(a + b) == NonBlank(a) + NonBlank(b)
    decreases |a|
  {
    if |a| == 0 {
      assert a + b == b;
    } else {
      assert (a + b)[0] == a[0];
      assert (a + b)[1..] == a[1..] + b;
      NonBlankAppend(a[1..], b);
    }
  }

  /** `/^\d{4}-\d{2}-\d{2}$/.test(s)`. */
  predicate IsIsoDate(s: string) {
    && |s| == 10
    && s[4] == '-' && s[7] == '-'
    && forall i :: 0 <= i < 10 && i != 4 && i != 7 ==> IsDigit(s[i])
  }
}
