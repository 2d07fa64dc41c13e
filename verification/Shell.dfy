/** user/sh.c: the cursor that moves over the command line, and the recursive descent with it. */
module Shell {
  import opened Common
  import opened ShellGrammar
  import opened ShellWords
  import opened ShellDerivation

  /** A word is where it starts and where it ends: q and eq. */
  datatype Range = Range(q: nat, eq: nat)

  predicate Space(c: char) {
    c == ' ' || c == '\t' || c == '\r' || c == '\n' || c == '\U{0B}'
  }

  predicate Symbol(c: char) {
    c == '<' || c == '|' || c == '>' || c == '&' || c == ';' || c == '(' || c == ')'
  }

  predicate WordChar(c: char) {
    !Space(c) && !Symbol(c)
  }

  function SkipSpace(s: string, i: nat): (j: nat)
    requires i <= |s|
    ensures i <= j <= |s| && (j < |s| ==> !Space(s[j]))
    decreases |s| - i
  {
    if i < |s| && Space(s[i]) then SkipSpace(s, i + 1) else i
  }

  function WordEnd(s: string, i: nat): (j: nat)
    requires i <= |s|
    ensures i <= j <= |s| && (j < |s| ==> !WordChar(s[j])) && (forall k :: i <= k < j ==> WordChar(s[k]))
    decreases |s| - i
  {
    if i < |s| && WordChar(s[i]) then WordEnd(s, i + 1) else i
  }

  /** The token at a character that is not a space, and where it ends. */
  function TokAt(s: string, i: nat): (t: (Tok<Range>, nat))
    requires i < |s| && !Space(s[i])
    ensures i < t.1 <= |s|
  {
    if s[i] == '>' then (if i + 1 < |s| && s[i + 1] == '>' then (Sym('+'), i + 2) else (Sym('>'), i + 1))
    else if Symbol(s[i]) then (Sym(s[i]), i + 1)
    else (Word(Range(i, WordEnd(s, i))), WordEnd(s, i))
  }

  /** The tokens from i on. */
  function Lex(s: string, i: nat): seq<Tok<Range>>
    requires i <= |s|
    decreases |s| - i
  {
    var j := SkipSpace(s, i);
    if j == |s| then [] else [TokAt(s, j).0] + Lex(s, TokAt(s, j).1)
  }

  lemma {:induction false} SkipLex(s: string, i: nat)
    requires i <= |s|
    ensures SkipSpace(s, SkipSpace(s, i)) == SkipSpace(s, i) && Lex(s, SkipSpace(s, i)) == Lex(s, i)
    decreases |s| - i
  {
    if i < |s| && Space(s[i]) { SkipLex(s, i + 1); }
  }

  /** What peek() can tell from the next character. */
  lemma FirstChar(s: string, i: nat, c: char)
    requires i <= |s| && SkipSpace(s, i) == i
    ensures Lex(s, i) == [] <==> i == |s|
    ensures i < |s| && Symbol(c) && c != '>' ==> (s[i] == c <==> Starts(Lex(s, i), c))
    ensures i < |s| ==> (s[i] == '<' || s[i] == '>' <==> StartsRedir(Lex(s, i)))
    ensures i < |s| ==> (s[i] == '|' || s[i] == ')' || s[i] == '&' || s[i] == ';' <==> Stops(Lex(s, i)))
  {
  }

  // ---------------------------------------------------------------- words and strings

  /** A word as gettoken() finds it: it cannot be longer. */
  predicate IsWord(s: string, r: Range) {
    r.q < r.eq <= |s| && (forall k :: r.q <= k < r.eq ==> WordChar(s[k])) && (r.eq < |s| ==> !WordChar(s[r.eq]))
  }

  predicate Spaces(s: string, i: nat, j: nat) {
    i <= j <= |s| && forall k :: i <= k < j ==> Space(s[k])
  }

  /** The characters j .. e - 1 are token t, and cannot be part of a longer one. */
  predicate Spells(s: string, j: nat, e: nat, t: Tok<Range>) {
    j < e <= |s| &&
    match t
    case Word(r) => r == Range(j, e) && IsWord(s, r)
    case Sym(c) =>
      if c == '+' then e == j + 2 && s[j..e] == ">>"
      else e == j + 1 && s[j] == c && c in "<>|&;()" && (c == '>' && e < |s| ==> s[e] != '>')
  }

  /** From i on, s is the tokens ts, with any white space before, between and after them. */
  ghost predicate LexD(s: string, i: nat, ts: seq<Tok<Range>>)
    decreases |ts|, 1
  {
    if ts == [] then Spaces(s, i, |s|) else exists j: nat, e: nat :: LexFirst(s, i, j, e, ts)
  }

  ghost predicate LexFirst(s: string, i: nat, j: nat, e: nat, ts: seq<Tok<Range>>)
    requires ts != []
    decreases |ts|, 0
  {
    Spaces(s, i, j) && Spells(s, j, e, ts[0]) && LexD(s, e, ts[1..])
  }

  lemma {:induction false} SkipIs(s: string, i: nat, j: nat)
    requires Spaces(s, i, j) && (j < |s| ==> !Space(s[j]))
    ensures SkipSpace(s, i) == j
    decreases j - i
  {
    if i < j { SkipIs(s, i + 1, j); }
  }

  lemma {:induction false} SkipSpaces(s: string, i: nat)
    requires i <= |s|
    ensures Spaces(s, i, SkipSpace(s, i))
    decreases |s| - i
  {
    if i < |s| && Space(s[i]) { SkipSpaces(s, i + 1); }
  }

  lemma {:induction false} WordEndAt(s: string, i: nat, j: nat)
    requires i <= j <= |s| && (forall k :: i <= k < j ==> WordChar(s[k])) && (j < |s| ==> !WordChar(s[j]))
    ensures WordEnd(s, i) == j
    decreases j - i
  {
    if i < j { WordEndAt(s, i + 1, j); }
  }

  lemma TokIff(s: string, j: nat, e: nat, t: Tok<Range>)
    requires j < |s|
    ensures Spells(s, j, e, t) <==> !Space(s[j]) && TokAt(s, j) == (t, e)
  {
    if Spells(s, j, e, t) && t.Word? { WordEndAt(s, j, e); }
    assert e == j + 2 && e <= |s| ==> s[j..e] == [s[j], s[j + 1]];
  }

  /** gettoken() reads exactly the tokens that the text consists of. */
  lemma {:induction false} LexIff(s: string, i: nat, ts: seq<Tok<Range>>)
    requires i <= |s|
    ensures Lex(s, i) == ts <==> LexD(s, i, ts)
    decreases |ts|
  {
    var j := SkipSpace(s, i);
    SkipSpaces(s, i);
    if ts == [] {
      if Spaces(s, i, |s|) { SkipIs(s, i, |s|); }
    } else {
      if Lex(s, i) == ts {
        var (t, e) := TokAt(s, j);
        TokIff(s, j, e, t);
        LexIff(s, e, ts[1..]);
        assert LexFirst(s, i, j, e, ts);
      }
      if k: nat, e: nat :| LexFirst(s, i, k, e, ts) {
        TokIff(s, k, e, ts[0]);
        SkipIs(s, i, k);
        LexIff(s, e, ts[1..]);
        assert ts == [ts[0]] + ts[1..];
      }
    }
  }

  ghost function GoodWords(s: string): iset<Range> {
    iset r: Range | IsWord(s, r)
  }

  lemma {:induction false} LexGood(s: string, i: nat)
    requires i <= |s|
    ensures AllIn(Lex(s, i), GoodWords(s))
    decreases |s| - i
  {
    var j := SkipSpace(s, i);
    if j < |s| { LexGood(s, TokAt(s, j).1); }
  }

  /** The string at q in a buffer. */
  function CString(t: seq<char>, q: nat): string
    decreases |t| - q
  {
    if q < |t| && t[q] != '\0' then [t[q]] + CString(t, q + 1) else ""
  }

  lemma {:induction false} CStringIs(t: seq<char>, q: nat, eq: nat)
    requires q <= eq < |t| && t[eq] == '\0' && (forall k :: q <= k < eq ==> t[k] != '\0')
    ensures CString(t, q) == t[q..eq]
    decreases eq - q
  {
    if q < eq {
      CStringIs(t, q + 1, eq);
      assert t[q..eq] == [t[q]] + t[q + 1..eq];
    }
  }

  // ---------------------------------------------------------------- nulterminate()

  function CutArgs(t: seq<char>, args: seq<Range>, n: nat): (r: seq<char>)
    requires n <= |args|
    ensures |r| == |t|
  {
    if n == 0 then t
    else
      var u := CutArgs(t, args, n - 1);
      if args[n - 1].eq < |t| then u[args[n - 1].eq := '\0'] else u
  }

  /** The buffer after nulterminate(). */
  function Cut(t: seq<char>, c: Cmd<Range>): (r: seq<char>)
    ensures |r| == |t|
    decreases c
  {
    match c
    case Exec(args) => CutArgs(t, args, |args|)
    case Redir(d, file, _) => if file.eq < |t| then Cut(t, d)[file.eq := '\0'] else Cut(t, d)
    case Pipe(l, r) => Cut(Cut(t, l), r)
    case List(l, r) => Cut(Cut(t, l), r)
    case Back(d) => Cut(t, d)
  }

  /** From t to u, only characters after words were cleared. */
  ghost predicate OnlyCut(s: string, t: seq<char>, u: seq<char>) {
    |u| == |t| == |s| + 1 && forall k :: 0 <= k < |t| ==>
      && (u[k] == t[k] || u[k] == '\0')
      && (k < |s| && WordChar(s[k]) ==> u[k] == t[k])
  }

  lemma {:induction false} CutArgsOnly(s: string, t: seq<char>, args: seq<Range>, n: nat)
    requires n <= |args| && |t| == |s| + 1 && WordsIn(Exec(args), GoodWords(s))
    ensures OnlyCut(s, t, CutArgs(t, args, n))
    ensures forall i :: 0 <= i < n ==> args[i].eq < |t| && CutArgs(t, args, n)[args[i].eq] == '\0'
  {
    if n > 0 { CutArgsOnly(s, t, args, n - 1); assert args[n - 1] in GoodWords(s); }
  }

  /** Every word of c is ended. */
  ghost function Ended(t: seq<char>): iset<Range> {
    iset r: Range | r.eq < |t| && t[r.eq] == '\0'
  }

  lemma {:induction false} StaysEnded(s: string, t: seq<char>, u: seq<char>, c: Cmd<Range>)
    requires WordsIn(c, Ended(t)) && OnlyCut(s, t, u)
    ensures WordsIn(c, Ended(u))
  {
    match c
    case Exec(_) =>
    case Redir(d, _, _) => StaysEnded(s, t, u, d);
    case Pipe(l, r) => StaysEnded(s, t, u, l); StaysEnded(s, t, u, r);
    case List(l, r) => StaysEnded(s, t, u, l); StaysEnded(s, t, u, r);
    case Back(d) => StaysEnded(s, t, u, d);
  }

  /** nulterminate() ends every word, and clears no character of any word. */
  lemma {:induction false} CutOnly(s: string, t: seq<char>, c: Cmd<Range>)
    requires |t| == |s| + 1 && WordsIn(c, GoodWords(s))
    ensures OnlyCut(s, t, Cut(t, c)) && WordsIn(c, Ended(Cut(t, c)))
    decreases c
  {
    match c
    case Exec(args) =>
      CutArgsOnly(s, t, args, |args|);
    case Redir(d, file, _) =>
      CutOnly(s, t, d);
      assert file in GoodWords(s);
      StaysEnded(s, Cut(t, d), Cut(t, c), d);
    case Pipe(l, r) =>
      CutOnly(s, t, l);
      CutOnly(s, Cut(t, l), r);
      StaysEnded(s, Cut(t, l), Cut(t, c), l);
    case List(l, r) =>
      CutOnly(s, t, l);
      CutOnly(s, Cut(t, l), r);
      StaysEnded(s, Cut(t, l), Cut(t, c), l);
    case Back(d) =>
      CutOnly(s, t, d);
  }

  /** The words whose string in t is the word itself. */
  ghost function Readable(s: string, t: seq<char>): iset<Range> {
    iset r: Range | r.q <= r.eq <= |s| && CString(t, r.q) == s[r.q..r.eq]
  }

  lemma {:induction false} AllReadable(s: string, t: seq<char>, c: Cmd<Range>)
    requires '\0' !in s && OnlyCut(s, s + ['\0'], t) && WordsIn(c, GoodWords(s)) && WordsIn(c, Ended(t))
    ensures WordsIn(c, Readable(s, t))
  {
    match c
    case Exec(args) =>
      forall i | 0 <= i < |args| ensures args[i] in Readable(s, t) { OneReadable(s, t, args[i]); }
    case Redir(d, file, _) =>
      AllReadable(s, t, d);
      OneReadable(s, t, file);
    case Pipe(l, r) => AllReadable(s, t, l); AllReadable(s, t, r);
    case List(l, r) => AllReadable(s, t, l); AllReadable(s, t, r);
    case Back(d) => AllReadable(s, t, d);
  }

  lemma OneReadable(s: string, t: seq<char>, r: Range)
    requires '\0' !in s && OnlyCut(s, s + ['\0'], t) && r in GoodWords(s) && r in Ended(t)
    ensures r in Readable(s, t)
  {
    forall k | r.q <= k < r.eq ensures t[k] == s[k] && t[k] != '\0' {
      assert WordChar(s[k]) && (s + ['\0'])[k] == s[k] && s[k] in s;
    }
    CStringIs(t, r.q, r.eq);
    assert t[r.q..r.eq] == s[r.q..r.eq];
  }

  /** After parsecmd(), every argument and file name is, as a C string, exactly its word of the line. */
  lemma StringsAreWords(s: string)
    requires '\0' !in s && ShellGrammar.ParseLine(Lex(s, 0)).Ok?
    ensures var c := ShellGrammar.ParseLine(Lex(s, 0)).cmd; WordsIn(c, Readable(s, Cut(s + ['\0'], c)))
  {
    var c := ShellGrammar.ParseLine(Lex(s, 0)).cmd;
    LexGood(s, 0);
    LineMap((r: Range) => r, GoodWords(s), Lex(s, 0));
    CutOnly(s, s + ['\0'], c);
    AllReadable(s, Cut(s + ['\0'], c), c);
  }

  // ---------------------------------------------------------------- the parser

  class Parser {
    const buf: string
    var ps: nat
    var text: seq<char>       // the line with its terminating '\0', as nulterminate() leaves it

    constructor(s: string)
      ensures buf == s && ps == 0 && text == s + ['\0']
    {
      buf, ps, text := s, 0, s + ['\0'];
    }

    /** The tokens still to come. */
    ghost function Next(): seq<Tok<Range>>
      requires ps <= |buf|
      reads this
    {
      Lex(buf, ps)
    }

    method Skip()
      requires ps <= |buf|
      modifies this`ps
      ensures ps == SkipSpace(buf, old(ps)) && Next() == Lex(buf, old(ps)) && SkipSpace(buf, ps) == ps
    {
      SkipLex(buf, ps);
      while ps < |buf| && Space(buf[ps])
        invariant old(ps) <= ps <= |buf| && SkipSpace(buf, ps) == SkipSpace(buf, old(ps))
      {
        ps := ps + 1;
      }
    }

    /** peek() for one symbol. */
    method Peek(c: char) returns (b: bool)
      requires ps <= |buf| && Symbol(c) && c != '>'
      modifies this`ps
      ensures ps <= |buf| && Next() == Lex(buf, old(ps)) && (b <==> Starts(Next(), c))
    {
      Skip();
      FirstChar(buf, ps, c);
      b := ps < |buf| && buf[ps] == c;
    }

    /** peek(ps, es, "<>") */
    method PeekRedir() returns (b: bool)
      requires ps <= |buf|
      modifies this`ps
      ensures ps <= |buf| && Next() == Lex(buf, old(ps)) && (b <==> StartsRedir(Next()))
    {
      Skip();
      FirstChar(buf, ps, '<');
      b := ps < |buf| && (buf[ps] == '<' || buf[ps] == '>');
    }

    /** peek(ps, es, "|)&;"), or the end of the line, where gettoken() returns 0. */
    method PeekStop() returns (b: bool)
      requires ps <= |buf|
      modifies this`ps
      ensures ps <= |buf| && Next() == Lex(buf, old(ps)) && (b <==> Stops(Next()))
    {
      Skip();
      FirstChar(buf, ps, '|');
      b := ps == |buf| || buf[ps] == '|' || buf[ps] == ')' || buf[ps] == '&' || buf[ps] == ';';
    }

    /** gettoken(): the next token, or None at the end. */
    method GetToken() returns (t: Option<Tok<Range>>)
      requires ps <= |buf|
      modifies this`ps
      ensures ps <= |buf|
      ensures t == if Lex(buf, old(ps)) == [] then None else Some(Lex(buf, old(ps))[0])
      ensures Next() == if Lex(buf, old(ps)) == [] then [] else Lex(buf, old(ps))[1..]
    {
      Skip();
      ghost var i := ps;
      if ps == |buf| { return None; }
      var c := buf[ps];
      if c == '>' {
        ps := ps + 1;
        if ps < |buf| && buf[ps] == '>' {
          ps := ps + 1;
          t := Some(Sym('+'));
        } else {
          t := Some(Sym('>'));
        }
      } else if Symbol(c) {
        ps := ps + 1;
        t := Some(Sym(c));
      } else {
        var q := ps;
        while ps < |buf| && !Space(buf[ps]) && !Symbol(buf[ps])
          invariant i <= ps <= |buf| && WordEnd(buf, ps) == WordEnd(buf, i)
        {
          ps := ps + 1;
        }
        t := Some(Word(Range(q, ps)));
      }
      assert TokAt(buf, i) == (t.value, ps);
      Skip();
    }

    /** parseredirs(): the redirections from here on are added; None if a file name is missing. */
    method ParseRedirs(rs: seq<Redirection<Range>>) returns (r: Option<seq<Redirection<Range>>>)
      requires ps <= |buf|
      modifies this`ps
      ensures ps <= |buf|
      ensures var p := Redirs(rs, Lex(buf, old(ps))); if p.NoFile? then r.None? else r == Some(p.rs) && Next() == p.rest
    {
      var acc := rs;
      ghost var L := Next();
      var more := PeekRedir();
      while more
        invariant ps <= |buf| && (more <==> StartsRedir(Next())) && Redirs(acc, Next()) == Redirs(rs, L)
        decreases |Next()|
      {
        ghost var ts := Next();
        var tok := GetToken();
        var file := GetToken();
        if file.None? || file.value.Sym? { return None; }
        assert ts[1..][1..] == ts[2..];
        acc := acc + [Redirection(file.value.w, tok.value.c)];
        more := PeekRedir();
      }
      r := Some(acc);
    }

    /** What the parser functions promise: the result p of the grammar, or a panic. */
    ghost predicate Agrees(p: Parsed<Range>, r: Option<Cmd<Range>>)
      reads this
    {
      ps <= |buf| && if p.Fail? then r.None? else r == Some(p.cmd) && Next() == p.rest
    }

    /** The loop of parseexec().  The exec command gets its arguments while the redirections found between
        them are put around it. */
    method ParseArgs(rs0: seq<Redirection<Range>>) returns (r: Option<Cmd<Range>>)
      requires ps <= |buf|
      modifies this`ps
      ensures Agrees(ExecLoop([], rs0, Lex(buf, old(ps))), r)
    {
      var args: seq<Range>, rs := [], rs0;
      ghost var L := Next();
      var stop := PeekStop();
      while !stop
        invariant ps <= |buf| && (stop <==> Stops(Next())) && ExecLoop(args, rs, Next()) == ExecLoop([], rs0, L)
        decreases |Next()|
      {
        var tok := GetToken();
        if tok.value.Sym? { return None; }
        if |args| + 1 >= MAXARGS { return None; }
        args := args + [tok.value.w];
        var more := ParseRedirs(rs);
        if more.None? { return None; }
        rs := more.value;
        stop := PeekStop();
      }
      r := Some(Wrap(Exec(args), rs));
    }

    /** parseblock() */
    method ParseBlock() returns (r: Option<Cmd<Range>>)
      requires ps <= |buf| && Starts(Next(), '(')
      modifies this`ps
      ensures Agrees(ShellGrammar.ParseBlock(Lex(buf, old(ps))), r)
      decreases |Next()|, 0
    {
      var open := GetToken();
      r := ParseLine();
      if r.None? { return; }
      var close := Peek(')');
      if !close { return None; }
      var t := GetToken();
      var rs := ParseRedirs([]);
      if rs.None? { return None; }
      r := Some(Wrap(r.value, rs.value));
    }

    /** parseexec() */
    method ParseExec() returns (r: Option<Cmd<Range>>)
      requires ps <= |buf|
      modifies this`ps
      ensures Agrees(ShellGrammar.ParseExec(Lex(buf, old(ps))), r)
      decreases |Next()|, 1
    {
      var block := Peek('(');
      if block {
        r := ParseBlock();
        return;
      }
      var rs := ParseRedirs([]);
      if rs.None? { return None; }
      r := ParseArgs(rs.value);
    }

    /** parsepipe() */
    method ParsePipe() returns (r: Option<Cmd<Range>>)
      requires ps <= |buf|
      modifies this`ps
      ensures Agrees(ShellGrammar.ParsePipe(Lex(buf, old(ps))), r)
      decreases |Next()|, 2
    {
      r := ParseExec();
      if r.None? { return; }
      var bar := Peek('|');
      if bar {
        var t := GetToken();
        var right := ParsePipe();
        if right.None? { return None; }
        r := Some(Pipe(r.value, right.value));
      }
    }

    /** parseline() */
    method ParseLine() returns (r: Option<Cmd<Range>>)
      requires ps <= |buf|
      modifies this`ps
      ensures Agrees(ShellGrammar.ParseLine(Lex(buf, old(ps))), r)
      decreases |Next()|, 3
    {
      r := ParsePipe();
      if r.None? { return; }
      ghost var first, L := r.value, Next();
      var amp := Peek('&');
      while amp
        invariant ps <= |buf| && (amp <==> Starts(Next(), '&')) && r.Some? && Amps(r.value, Next()) == Amps(first, L)
        invariant |Next()| <= |L|
        decreases |Next()|
      {
        var t := GetToken();
        r := Some(Back(r.value));
        amp := Peek('&');
      }
      var semi := Peek(';');
      if semi {
        var t := GetToken();
        var rest := ParseLine();
        if rest.None? { return None; }
        r := Some(List(r.value, rest.value));
      }
    }

    /** nulterminate() */
    method NulTerminate(c: Cmd<Range>)
      requires |text| == |buf| + 1 && WordsIn(c, GoodWords(buf))
      modifies this`text
      ensures text == Cut(old(text), c)
      decreases c
    {
      match c {
        case Exec(args) =>
          var i := 0;
          while i < |args|
            invariant i <= |args| && text == CutArgs(old(text), args, i)
          {
            assert args[i] in GoodWords(buf);
            text := text[args[i].eq := '\0'];
            i := i + 1;
          }
        case Redir(d, file, _) =>
          NulTerminate(d);
          assert file in GoodWords(buf);
          text := text[file.eq := '\0'];
        case Pipe(l, r) =>
          NulTerminate(l);
          NulTerminate(r);
        case List(l, r) =>
          NulTerminate(l);
          NulTerminate(r);
        case Back(d) =>
          NulTerminate(d);
      }
    }

    /** parsecmd(): the command that the grammar gives to the whole line, with every argument and file name
        ended in the buffer; None stands for a panic. */
    method ParseCmd() returns (r: Option<Cmd<Range>>)
      requires ps == 0 && text == buf + ['\0'] && '\0' !in buf
      modifies this`ps, this`text
      ensures var p := ShellGrammar.ParseLine(Lex(buf, 0)); r == if p.Ok? && p.rest == [] then Some(p.cmd) else None
      ensures forall c :: LineD(Lex(buf, 0), c) <==> r == Some(c)
      ensures r.Some? ==> text == Cut(buf + ['\0'], r.value) && WordsIn(r.value, Readable(buf, text))
    {
      forall c ensures LineD(Lex(buf, 0), c) <==> ShellGrammar.ParseLine(Lex(buf, 0)) == Ok(c, []) {
        ParsesIff(Lex(buf, 0), c);
      }
      r := ParseLine();
      if r.None? { return; }
      Skip();
      FirstChar(buf, ps, '|');
      if ps != |buf| { return None; }
      LexGood(buf, 0);
      LineMap((x: Range) => x, GoodWords(buf), Lex(buf, 0));
      StringsAreWords(buf);
      NulTerminate(r.value);
    }
  }

  // ---------------------------------------------------------------- round trip

  /** A token printed, with a space after it. */
  function TokText(t: Tok<string>): (s: string)
    ensures |s| > 0
  {
    match t
    case Sym(c) => if c == '+' then ">> " else [c, ' ']
    case Word(w) => w + " "
  }

  function Text(ts: seq<Tok<string>>): string {
    if ts == [] then "" else TokText(ts[0]) + Text(ts[1..])
  }

  /** A symbol of the shell, or a word without spaces and symbols. */
  predicate Printable(t: Tok<string>) {
    match t
    case Sym(c) => Symbol(c) || c == '+'
    case Word(w) => w != "" && forall i :: 0 <= i < |w| ==> WordChar(w[i])
  }

  /** The text of a word. */
  function Slice(s: string, r: Range): string {
    if r.q <= r.eq <= |s| then s[r.q..r.eq] else ""
  }

  function Slices(s: string): Range -> string {
    (r: Range) => Slice(s, r)
  }

  /** The first token of a printed text. */
  lemma FirstTok(s: string, i: nat, t: Tok<string>)
    requires Printable(t) && i + |TokText(t)| <= |s| && s[i..i + |TokText(t)|] == TokText(t)
    ensures SkipSpace(s, i) == i && i < |s| && MapTok(Slices(s), TokAt(s, i).0) == t
    ensures TokAt(s, i).1 == i + |TokText(t)| - 1 && Space(s[TokAt(s, i).1])
  {
    var x := TokText(t);
    assert forall k :: 0 <= k < |x| ==> s[i + k] == x[k];
    if t.Word? {
      var j := i + |t.w|;
      assert s[j] == x[|t.w|];
      forall k | i <= k < j ensures WordChar(s[k]) { assert s[k] == x[k - i] == t.w[k - i]; }
      WordEndAt(s, i, j);
      forall k | 0 <= k < |t.w| ensures s[i..j][k] == t.w[k] { assert s[i + k] == x[k]; }
      assert s[i..j] == t.w;
    } else {
      assert s[i] == x[0] && s[i + 1] == x[1];
    }
  }

  /** From i on, s is the text of ts. */
  ghost predicate Prints(s: string, i: nat, ts: seq<Tok<string>>)
    decreases |ts|
  {
    if ts == [] then i == |s|
    else
      var e := i + |TokText(ts[0])|;
      Printable(ts[0]) && e <= |s| && s[i..e] == TokText(ts[0]) && Prints(s, e, ts[1..])
  }

  lemma {:induction false} TextPrints(pre: string, ts: seq<Tok<string>>)
    requires forall k :: 0 <= k < |ts| ==> Printable(ts[k])
    ensures Prints(pre + Text(ts), |pre|, ts)
    decreases |ts|
  {
    if ts != [] {
      var x := TokText(ts[0]);
      JoinTexts(pre, x, Text(ts[1..]));
      TextPrints(pre + x, ts[1..]);
    }
  }

  lemma JoinTexts(a: string, b: string, c: string)
    ensures a + (b + c) == a + b + c && (a + (b + c))[|a|..|a| + |b|] == b
  {
  }

  lemma SpaceLex(s: string, e: nat)
    requires e < |s| && Space(s[e])
    ensures Lex(s, e) == Lex(s, e + 1)
  {
    SkipLex(s, e);
    SkipLex(s, e + 1);
  }

  lemma MapCons<V, W>(f: V -> W, t: Tok<V>, ts: seq<Tok<V>>)
    ensures MapToks(f, [t] + ts) == [MapTok(f, t)] + MapToks(f, ts)
  {
  }

  lemma LexStep(s: string, i: nat, t: Tok<string>)
    requires Printable(t) && i + |TokText(t)| <= |s| && s[i..i + |TokText(t)|] == TokText(t)
    ensures MapToks(Slices(s), Lex(s, i)) == [t] + MapToks(Slices(s), Lex(s, i + |TokText(t)|))
  {
    FirstTok(s, i, t);
    var u, e := TokAt(s, i).0, TokAt(s, i).1;
    SpaceLex(s, e);
    assert Lex(s, i) == [u] + Lex(s, e);
    MapCons(Slices(s), u, Lex(s, e));
  }

  /** From i on, s is read as ts. */
  ghost predicate Reads(s: string, i: nat, ts: seq<Tok<string>>) {
    i <= |s| && MapToks(Slices(s), Lex(s, i)) == ts
  }

  lemma ReadsEnd(s: string)
    ensures Reads(s, |s|, []) == true
  {
  }

  lemma ReadsStep(s: string, i: nat, t: Tok<string>, ts: seq<Tok<string>>)
    requires Printable(t) && i + |TokText(t)| <= |s| && s[i..i + |TokText(t)|] == TokText(t)
    requires Reads(s, i + |TokText(t)|, ts) == true
    ensures Reads(s, i, [t] + ts) == true
  {
    LexStep(s, i, t);
  }

  lemma HeadAndTail(ts: seq<Tok<string>>)
    requires ts != []
    ensures [ts[0]] + ts[1..] == ts
  {
  }

  /** Reading a printed text gives the tokens back. */
  lemma {:induction false} LexText(s: string, i: nat, ts: seq<Tok<string>>)
    requires Prints(s, i, ts)
    ensures Reads(s, i, ts) == true
    decreases |ts|
  {
    if ts == [] {
      ReadsEnd(s);
    } else {
      LexText(s, i + |TokText(ts[0])|, ts[1..]);
      ReadsStep(s, i, ts[0], ts[1..]);
      HeadAndTail(ts);
    }
  }

  predicate PrintableCmd(c: Cmd<string>) {
    WellFormed(c) && forall i :: 0 <= i < |Toks(c)| ==> Printable(Toks(c)[i])
  }

  /** Parsing the printed text of a command gives the command back: a tree of positions whose words are the
      words of the command. */
  lemma TextRoundTrip(c: Cmd<string>)
    requires PrintableCmd(c)
    ensures var s := Text(Toks(c));
            var p := ShellGrammar.ParseLine(Lex(s, 0));
            p.Ok? && p.rest == [] && MapCmd(Slices(s), p.cmd) == c
  {
    var s := Text(Toks(c));
    LexPrinted(c);
    RoundTrip(c);
    LexGood(s, 0);
    LineMap(Slices(s), GoodWords(s), Lex(s, 0));
  }

  lemma LexPrinted(c: Cmd<string>)
    requires PrintableCmd(c)
    ensures MapToks(Slices(Text(Toks(c))), Lex(Text(Toks(c)), 0)) == Toks(c)
  {
    TextPrints("", Toks(c));
    assert "" + Text(Toks(c)) == Text(Toks(c));
    LexText(Text(Toks(c)), 0, Toks(c));
  }
}
