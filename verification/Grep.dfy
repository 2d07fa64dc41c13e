/** user/grep.c: the matcher against a meaning of patterns, and the line buffering of grep().

    A C string is a sequence of characters without '\0'; its end stands for the terminator. */
module Grep {
  import opened Common

  // ---------------------------------------------------------------- what a pattern means

  /** A pattern after a leading ^: characters, with '.' for any, and starred characters. */
  datatype Item = One(c: char) | Star(c: char)

  /** A trailing $ is not part of the items. */
  predicate HasEnd(re: string) {
    if re == "" then false
    else if |re| > 1 && re[1] == '*' then HasEnd(re[2..])
    else if re == "$" then true
    else HasEnd(re[1..])
  }

  function Items(re: string): seq<Item> {
    if re == "" then []
    else if |re| > 1 && re[1] == '*' then [Star(re[0])] + Items(re[2..])
    else if re == "$" then []
    else [One(re[0])] + Items(re[1..])
  }

  predicate Fits(c: char, x: char) {
    c == '.' || c == x
  }

  predicate AllFit(c: char, w: string) {
    forall i :: 0 <= i < |w| ==> Fits(c, w[i])
  }

  /** w is a word of the language of the items. */
  ghost predicate InLang(items: seq<Item>, w: string)
    decreases items
  {
    if items == [] then w == ""
    else match items[0]
      case One(c) => w != "" && Fits(c, w[0]) && InLang(items[1..], w[1..])
      case Star(c) => exists n :: Repeats(items, w, c, n)
  }

  /** n characters fit c, and the rest of w the rest of the items. */
  ghost predicate Repeats(items: seq<Item>, w: string, c: char, n: int)
    requires items != []
    decreases items, 0
  {
    0 <= n <= |w| && AllFit(c, w[..n]) && InLang(items[1..], w[n..])
  }

  /** The first j characters of text match re, and with $ they are all of it. */
  ghost predicate HereTo(re: string, text: string, j: int) {
    0 <= j <= |text| && InLang(Items(re), text[..j]) && (HasEnd(re) ==> j == |text|)
  }

  ghost predicate Here(re: string, text: string) {
    exists j :: HereTo(re, text, j)
  }

  ghost predicate HereFrom(re: string, text: string, i: int) {
    0 <= i <= |text| && Here(re, text[i..])
  }

  /** Some part of text matches re; with ^, one at the start. */
  ghost predicate Meaning(re: string, text: string) {
    if re != "" && re[0] == '^' then Here(re[1..], text) else exists i :: HereFrom(re, text, i)
  }

  // ---------------------------------------------------------------- one step of the matcher

  lemma EmptyPattern(text: string)
    ensures Here("", text)
  {
    assert HereTo("", text, 0);
  }

  lemma EndPattern(text: string)
    ensures Here("$", text) <==> text == ""
  {
    if text == "" { assert HereTo("$", text, 0); }
  }

  predicate Starred(re: string) {
    |re| > 1 && re[1] == '*'
  }

  lemma OnePattern(re: string, text: string)
    requires re != "" && !Starred(re) && re != "$"
    ensures Here(re, text) <==> text != "" && Fits(re[0], text[0]) && Here(re[1..], text[1..])
  {
    if Here(re, text) {
      var j :| HereTo(re, text, j);
      assert Items(re)[1..] == Items(re[1..]);
      assert text[..j][1..] == text[1..][..j - 1];
      assert HereTo(re[1..], text[1..], j - 1);
    }
    if text != "" && Fits(re[0], text[0]) && Here(re[1..], text[1..]) {
      var j :| HereTo(re[1..], text[1..], j);
      assert Items(re)[1..] == Items(re[1..]);
      assert text[..j + 1][1..] == text[1..][..j];
      assert HereTo(re, text, j + 1);
    }
  }

  /** c*re at the start of text: some run of characters that fit c, and then re. */
  ghost predicate StarAt(c: char, re: string, text: string, n: int) {
    0 <= n <= |text| && AllFit(c, text[..n]) && Here(re, text[n..])
  }

  ghost predicate StarHere(c: char, re: string, text: string) {
    exists n :: StarAt(c, re, text, n)
  }

  lemma StarPattern(re: string, text: string)
    requires Starred(re)
    ensures Here(re, text) <==> StarHere(re[0], re[2..], text)
  {
    assert Items(re)[1..] == Items(re[2..]);
    if Here(re, text) {
      var j :| HereTo(re, text, j);
      var items, w := Items(re), text[..j];
      assert InLang(items, w) && items[0] == Star(re[0]);
      var n :| Repeats(items, w, re[0], n);
      assert text[..j][n..] == text[n..][..j - n] && text[..j][..n] == text[..n];
      assert HereTo(re[2..], text[n..], j - n);
      assert StarAt(re[0], re[2..], text, n);
    }
    if StarHere(re[0], re[2..], text) {
      var n :| StarAt(re[0], re[2..], text, n);
      var j :| HereTo(re[2..], text[n..], j);
      var k := n + j;
      assert text[..k][n..] == text[n..][..j] && text[..k][..n] == text[..n];
      assert Repeats(Items(re), text[..k], re[0], n);
      assert HereTo(re, text, k);
    }
  }

  /** matchstar()'s loop: the first character, or none. */
  lemma StarStep(c: char, re: string, text: string)
    ensures StarHere(c, re, text) <==> Here(re, text) || (text != "" && Fits(c, text[0]) && StarHere(c, re, text[1..]))
  {
    if StarHere(c, re, text) {
      var n :| StarAt(c, re, text, n);
      if n == 0 {
        assert text[0..] == text;
      } else {
        assert text[..n][0] == text[0] && text[1..][..n - 1] == text[..n][1..] && text[1..][n - 1..] == text[n..];
        assert StarAt(c, re, text[1..], n - 1);
      }
    }
    if Here(re, text) {
      assert text[0..] == text;
      assert StarAt(c, re, text, 0);
    }
    if text != "" && Fits(c, text[0]) && StarHere(c, re, text[1..]) {
      var n :| StarAt(c, re, text[1..], n);
      assert text[..n + 1] == [text[0]] + text[1..][..n] && text[n + 1..] == text[1..][n..];
      assert StarAt(c, re, text, n + 1);
    }
  }

  // ---------------------------------------------------------------- the matcher

  /** matchhere() */
  method MatchHere(re: string, text: string) returns (b: bool)
    ensures b <==> Here(re, text)
    decreases |re|, 1
  {
    if re == "" {
      EmptyPattern(text);
      return true;
    }
    if |re| > 1 && re[1] == '*' {
      StarPattern(re, text);
      b := MatchStar(re[0], re[2..], text);
      return;
    }
    if re[0] == '$' && |re| == 1 {
      EndPattern(text);
      return text == "";
    }
    OnePattern(re, text);
    if text != "" && (re[0] == '.' || re[0] == text[0]) {
      b := MatchHere(re[1..], text[1..]);
      return;
    }
    return false;
  }

  /** matchstar() */
  method MatchStar(c: char, re: string, text: string) returns (b: bool)
    ensures b <==> StarHere(c, re, text)
    decreases |re|, 2
  {
    var i, more := 0, true;
    assert text[0..] == text;
    while more
      invariant 0 <= i <= |text|
      invariant more ==> (StarHere(c, re, text) <==> StarHere(c, re, text[i..]))
      invariant !more ==> !StarHere(c, re, text)
      decreases more, |text| - i
    {
      StarStep(c, re, text[i..]);
      var here := MatchHere(re, text[i..]);
      if here { return true; }
      if i < |text| && (text[i] == c || c == '.') {
        assert text[i..][1..] == text[i + 1..];
        i := i + 1;
      } else {
        more := false;
      }
    }
    return false;
  }

  /** match(): agrees with the meaning of the pattern. */
  method Match(re: string, text: string) returns (b: bool)
    ensures b <==> Meaning(re, text)
  {
    if re != "" && re[0] == '^' {
      b := MatchHere(re[1..], text);
      return;
    }
    var i, more := 0, true;
    while more
      invariant 0 <= i <= |text| && (forall k :: 0 <= k < i ==> !HereFrom(re, text, k))
      invariant !more ==> i == |text| && !HereFrom(re, text, i)
      decreases more, |text| - i
    {
      var here := MatchHere(re, text[i..]);
      if here {
        assert HereFrom(re, text, i);
        return true;
      }
      if i < |text| { i := i + 1; } else { more := false; }
    }
    return false;
  }

  // ---------------------------------------------------------------- lines

  const BUFSIZE := 1024

  /** The start of the line that position e is in. */
  function LineStart(s: string, e: nat): (b: nat)
    requires e <= |s|
    ensures b <= e
  {
    if e == 0 || s[e - 1] == '\n' then e else LineStart(s, e - 1)
  }

  /** What grep should print of the first e characters: the lines that match and end there.  A last line
      without a newline is not printed. */
  ghost function Output(re: string, s: string, e: nat): string
    requires e <= |s|
  {
    if e == 0 then ""
    else if s[e - 1] != '\n' then Output(re, s, e - 1)
    else
      var b := LineStart(s, e - 1);
      Output(re, s, e - 1) + if Meaning(re, s[b..e - 1]) then s[b..e] else ""
  }

  /** If a line ends at e, it fits the buffer with its newline. */
  predicate LineFits(s: string, e: int) {
    0 < e <= |s| && s[e - 1] == '\n' ==> e - LineStart(s, e - 1) <= BUFSIZE - 1
  }

  ghost predicate FitTo(s: string, a: nat) {
    forall e :: e <= a ==> LineFits(s, e)
  }

  ghost predicate NulFree(s: string) {
    forall i :: 0 <= i < |s| ==> s[i] != '\0'
  }

  predicate NoNewline(s: string, a: nat, b: nat) {
    forall i :: a <= i < b && i < |s| ==> s[i] != '\n'
  }

  lemma {:induction false} WithinLine(re: string, s: string, a: nat, b: nat)
    requires a <= b <= |s| && NoNewline(s, a, b)
    ensures LineStart(s, b) == LineStart(s, a) && Output(re, s, b) == Output(re, s, a)
  {
    if a < b { WithinLine(re, s, a, b - 1); }
  }

  /** A line that starts at a and has its newline at e - 1. */
  lemma OneLine(re: string, s: string, a: nat, e: nat)
    requires a < e <= |s| && LineStart(s, a) == a && NoNewline(s, a, e - 1) && s[e - 1] == '\n'
    ensures Output(re, s, e) == Output(re, s, a) + if Meaning(re, s[a..e - 1]) then s[a..e] else ""
    ensures LineStart(s, e) == e
  {
    WithinLine(re, s, a, e - 1);
  }

  /** a is where grep() stops: the start of the first line that does not fit, or of an unfinished last
      line. */
  ghost predicate StopsAt(s: string, a: nat) {
    && a <= |s| && LineStart(s, a) == a && FitTo(s, a)
    && (forall e :: TooLong(s, a, e))
  }

  ghost predicate TooLong(s: string, a: nat, e: int) {
    a < e <= |s| && s[e - 1] == '\n' && NoNewline(s, a, e - 1) ==> e - a > BUFSIZE - 1
  }

  lemma FirstNewline(s: string, a: nat, b: nat) returns (e: nat)
    requires a < b <= |s| && s[b - 1] == '\n'
    ensures a < e <= b && s[e - 1] == '\n' && NoNewline(s, a, e - 1)
  {
    e := a + 1;
    while s[e - 1] != '\n'
      invariant a < e <= b && NoNewline(s, a, e - 1)
      decreases b - e
    {
      e := e + 1;
    }
  }

  /** There is only one such place. */
  lemma StopsOnce(s: string, a: nat, b: nat)
    requires StopsAt(s, a) && StopsAt(s, b)
    ensures a == b
  {
    if a < b { StopsLater(s, a, b); }
    if b < a { StopsLater(s, b, a); }
  }

  lemma StopsLater(s: string, a: nat, b: nat)
    requires StopsAt(s, a) && a < b <= |s| && LineStart(s, b) == b
    ensures !FitTo(s, b)
  {
    assert s[b - 1] == '\n';
    var e := FirstNewline(s, a, b);
    WithinLine("", s, a, e - 1);
    assert TooLong(s, a, e);
    assert !LineFits(s, e);
  }

  /** If all lines fit, grep() stops with nothing more to print. */
  lemma AllFitStop(re: string, s: string, a: nat)
    requires StopsAt(s, a) && FitTo(s, |s|)
    ensures Output(re, s, a) == Output(re, s, |s|)
  {
    if !NoNewline(s, a, |s|) {
      var i :| a <= i < |s| && s[i] == '\n';
      StopsLater(s, a, i + 1);
    }
    WithinLine(re, s, a, |s|);
  }

  // ---------------------------------------------------------------- what is dropped

  /** The last line has no newline, and it matches. */
  ghost predicate LastMatches(re: string, s: string) {
    LineStart(s, |s|) < |s| && Meaning(re, s[LineStart(s, |s|)..])
  }

  /** All lines that match, and the last one even without a newline. */
  ghost function AllOutput(re: string, s: string): string {
    Output(re, s, |s|) + if LastMatches(re, s) then s[LineStart(s, |s|)..] else ""
  }

  /** A line that ends at e matches. */
  ghost predicate MatchEnds(re: string, s: string, e: int) {
    0 < e <= |s| && s[e - 1] == '\n' && Meaning(re, s[LineStart(s, e - 1)..e - 1])
  }

  ghost predicate NoMatch(re: string, s: string, a: nat, b: nat) {
    forall e :: a < e <= b ==> !MatchEnds(re, s, e)
  }

  lemma {:induction false} OutputGrows(re: string, s: string, a: nat, b: nat)
    requires a <= b <= |s|
    ensures NoMatch(re, s, a, b) ==> Output(re, s, b) == Output(re, s, a)
    ensures !NoMatch(re, s, a, b) ==> |Output(re, s, a)| < |Output(re, s, b)|
  {
    if a < b {
      OutputGrows(re, s, a, b - 1);
      if NoMatch(re, s, a, b - 1) && !MatchEnds(re, s, b) { assert NoMatch(re, s, a, b); }
    }
  }

  /** grep() prints every line that matches if and only if none does from the place on where it stops. */
  lemma PrintsAllIff(re: string, s: string, a: nat)
    requires StopsAt(s, a)
    ensures Output(re, s, a) == AllOutput(re, s) <==> NoMatch(re, s, a, |s|) && !LastMatches(re, s)
  {
    OutputGrows(re, s, a, |s|);
  }

  /** The pattern a and a file that is the letter a without a newline: the line matches and is not printed. */
  lemma LastLineDropped()
    ensures StopsAt("a", 0) && Output("a", "a", 0) == "" && AllOutput("a", "a") == "a"
  {
    var s := "a";
    WithinLine("a", s, 0, 1);
    EmptyPattern(s[1..]);
    OnePattern("a", s);
    assert "a"[1..] == "" && s[0..] == s;
    assert HereFrom("a", s, 0);
  }

  // ---------------------------------------------------------------- grep()

  /** What strchr(p, '\n') returns: a newline, or none before the first '\0'. */
  ghost predicate Found(s: string, q: nat) {
    && q <= |s| && (q < |s| ==> s[q] == '\n' && NoNewline(s, 0, q))
    && (q == |s| ==> NoNewline(s, 0, |s|) || exists i :: 0 <= i < |s| && s[i] == '\0' && NoNewline(s, 0, i))
  }

  /** strchr(p, '\n') on a buffer that ends in '\0': the index, or the length if there is none. */
  method Strchr(s: string) returns (q: nat)
    ensures Found(s, q)
  {
    q := 0;
    while q < |s|
      invariant q <= |s| && NoNewline(s, 0, q)
    {
      if s[q] == '\n' { return; }
      if s[q] == '\0' { return |s|; }
      q := q + 1;
    }
  }

  /** The C string at the start of s: it ends at the first '\0'. */
  function CString(s: string): string {
    if s == "" || s[0] == '\0' then "" else [s[0]] + CString(s[1..])
  }

  lemma {:induction false} NulFreeString(s: string)
    requires forall i :: 0 <= i < |s| ==> s[i] != '\0'
    ensures CString(s) == s
  {
    if s != "" { NulFreeString(s[1..]); }
  }

  /** The buffer holds input[a..pos], a is the start of a line, and out is what to print up to there. */
  ghost predicate At(re: string, input: string, a: nat, pos: nat, buf: string, out: string) {
    && a <= pos <= |input| && LineStart(input, a) == a && FitTo(input, a)
    && buf == input[a..pos] && out == Output(re, input, a)
  }

  lemma AtNewline(re: string, input: string, a: nat, pos: nat, buf: string, out: string, q: nat, b: bool)
    requires NulFree(input) && At(re, input, a, pos, buf, out)
    requires q < |buf| < BUFSIZE && Found(buf, q) && (b <==> Meaning(re, CString(buf[..q])))
    ensures At(re, input, a + q + 1, pos, buf[q + 1..], if b then out + buf[..q + 1] else out)
  {
    var e := a + q + 1;
    assert buf[..q] == input[a..e - 1] && buf[..q + 1] == input[a..e] && buf[q + 1..] == input[e..pos];
    assert NoNewline(input, a, e - 1) by {
      forall i | a <= i < e - 1 ensures input[i] != '\n' { assert buf[i - a] == input[i]; }
    }
    assert input[e - 1] == buf[q];
    NulFreeString(buf[..q]);
    OneLine(re, input, a, e);
    forall x | a < x <= e ensures LineFits(input, x) { WithinLine(re, input, a, x - 1); }
  }

  lemma AllLinesDone(re: string, input: string, a: nat, pos: nat, buf: string, out: string)
    requires NulFree(input) && At(re, input, a, pos, buf, out) && Found(buf, |buf|)
    ensures NoNewline(buf, 0, |buf|)
  {
    assert forall i :: 0 <= i < |buf| ==> buf[i] == input[a + i];
  }

  /** The inner loop of grep(): prints the matching lines of the buffer and keeps what is left. */
  method DrainLines(re: string, buf0: string, out0: string, ghost input: string, ghost a0: nat, ghost pos: nat)
      returns (buf: string, out: string, ghost a: nat)
    requires |buf0| < BUFSIZE && (NulFree(input) ==> At(re, input, a0, pos, buf0, out0))
    ensures |buf| <= |buf0| && (NulFree(input) ==> At(re, input, a, pos, buf, out) && NoNewline(buf, 0, |buf|))
  {
    buf, out, a := buf0, out0, a0;
    var q: nat := Strchr(buf);
    while q < |buf|
      invariant |buf| <= |buf0| && Found(buf, q)
      invariant NulFree(input) ==> At(re, input, a, pos, buf, out) == true
      decreases |buf|
    {
      var b := Match(re, CString(buf[..q]));
      if NulFree(input) { AtNewline(re, input, a, pos, buf, out, q, b); }
      if b { out := out + buf[..q + 1]; }
      buf, a := buf[q + 1..], a + q + 1;
      q := Strchr(buf);
    }
    if NulFree(input) { AllLinesDone(re, input, a, pos, buf, out); }
  }

  /** How much read() returns: at least one byte if there is any and there is room. */
  function ReadSize(want: nat, room: nat, left: nat): (n: nat)
    ensures n <= room && n <= left && (n == 0 <==> room == 0 || left == 0)
  {
    var w := if want == 0 then room else want;
    if w > room then (if room > left then left else room) else (if w > left then left else w)
  }

  /** grep().  sizes says how much read() returns each time, as far as the buffer and the input allow.  For
      input without '\0' the output does not depend on it: what is printed is what to print up to the one
      place where grep stops. */
  method Grep(re: string, input: string, sizes: seq<nat>) returns (out: string, ghost a: nat)
    ensures NulFree(input) ==> StopsAt(input, a) && out == Output(re, input, a)
    ensures NulFree(input) && FitTo(input, |input|) ==> out == Output(re, input, |input|)
  {
    out, a := "", 0;
    var buf, pos, k := "", 0, 0;
    var n: nat := ReadSize(if k < |sizes| then sizes[k] else 0, BUFSIZE - 1, |input|);
    while n > 0
      invariant pos + n <= |input| && |buf| + n <= BUFSIZE - 1 && (n == 0 ==> pos == |input| || |buf| == BUFSIZE - 1)
      invariant NulFree(input) ==> At(re, input, a, pos, buf, out) && NoNewline(buf, 0, |buf|)
      decreases |input| - pos
    {
      var full := buf + input[pos..pos + n];
      pos, k := pos + n, k + 1;
      buf, out, a := DrainLines(re, full, out, input, a, pos);
      n := ReadSize(if k < |sizes| then sizes[k] else 0, BUFSIZE - 1 - |buf|, |input| - pos);
    }
    if NulFree(input) {
      Ended(re, input, a, pos, buf, out);
      if FitTo(input, |input|) { AllFitStop(re, input, a); }
    }
  }

  lemma Ended(re: string, input: string, a: nat, pos: nat, buf: string, out: string)
    requires At(re, input, a, pos, buf, out) && NoNewline(buf, 0, |buf|)
    requires pos == |input| || |buf| == BUFSIZE - 1
    ensures StopsAt(input, a)
  {
    forall i | a <= i < pos ensures input[i] != '\n' { assert buf[i - a] == input[i]; }
    forall e ensures TooLong(input, a, e) {}
  }
}
