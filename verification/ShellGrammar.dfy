/** The grammar that the parser of user/sh.c accepts, on tokens, and the round trip through it.

    W is the type of words: positions in the input for the parser, strings for a reader. */
module ShellGrammar {

  const MAXARGS := 10

  /** A symbol, with '+' for >>, or a word. */
  datatype Tok<+W> = Sym(c: char) | Word(w: W)

  datatype Cmd<+W> =
    | Exec(args: seq<W>)
    | Redir(cmd: Cmd<W>, file: W, mode: char)   // '<', '>' or '+'
    | Pipe(left: Cmd<W>, right: Cmd<W>)
    | List(left: Cmd<W>, right: Cmd<W>)
    | Back(cmd: Cmd<W>)

  /** The parser panics, or it has a command and some tokens left. */
  datatype Parsed<+W> = Fail | Ok(cmd: Cmd<W>, rest: seq<Tok<W>>)

  /** Redirections, innermost first. */
  datatype Redirection<+W> = Redirection(file: W, mode: char)

  datatype Redirected<+W> = NoFile | Redirected(rs: seq<Redirection<W>>, rest: seq<Tok<W>>)

  predicate Starts<W>(ts: seq<Tok<W>>, c: char) {
    |ts| > 0 && ts[0].Sym? && ts[0].c == c
  }

  predicate StartsRedir<W>(ts: seq<Tok<W>>) {
    |ts| > 0 && ts[0].Sym? && (ts[0].c == '<' || ts[0].c == '>' || ts[0].c == '+')
  }

  /** Where an exec command ends: at the end or at one of |)&; */
  predicate Stops<W>(ts: seq<Tok<W>>) {
    ts == [] || (ts[0].Sym? && (ts[0].c == '|' || ts[0].c == ')' || ts[0].c == '&' || ts[0].c == ';'))
  }

  function Wrap<W>(cmd: Cmd<W>, rs: seq<Redirection<W>>): Cmd<W> {
    if rs == [] then cmd else Redir(Wrap(cmd, rs[..|rs| - 1]), rs[|rs| - 1].file, rs[|rs| - 1].mode)
  }

  // ---------------------------------------------------------------- the parser on tokens

  function Redirs<W>(rs: seq<Redirection<W>>, ts: seq<Tok<W>>): (r: Redirected<W>)
    ensures r.Redirected? ==> |r.rest| <= |ts|
    decreases |ts|
  {
    if !StartsRedir(ts) then Redirected(rs, ts)
    else if |ts| < 2 || !ts[1].Word? then NoFile
    else Redirs(rs + [Redirection(ts[1].w, ts[0].c)], ts[2..])
  }

  function ExecLoop<W>(args: seq<W>, rs: seq<Redirection<W>>, ts: seq<Tok<W>>): (r: Parsed<W>)
    ensures r.Ok? ==> |r.rest| <= |ts|
    decreases |ts|
  {
    if Stops(ts) then Ok(Wrap(Exec(args), rs), ts)
    else if !ts[0].Word? || |args| + 1 >= MAXARGS then Fail
    else
      var more := Redirs(rs, ts[1..]);
      if more.NoFile? then Fail else ExecLoop(args + [ts[0].w], more.rs, more.rest)
  }

  function ParseBlock<W>(ts: seq<Tok<W>>): (r: Parsed<W>)
    requires Starts(ts, '(')
    ensures r.Ok? ==> |r.rest| < |ts|
    decreases |ts|, 0
  {
    var inner := ParseLine(ts[1..]);
    if inner.Fail? || !Starts(inner.rest, ')') then Fail
    else
      var more := Redirs([], inner.rest[1..]);
      if more.NoFile? then Fail else Ok(Wrap(inner.cmd, more.rs), more.rest)
  }

  function ParseExec<W>(ts: seq<Tok<W>>): (r: Parsed<W>)
    ensures r.Ok? ==> |r.rest| <= |ts|
    decreases |ts|, 1
  {
    if Starts(ts, '(') then ParseBlock(ts)
    else
      var more := Redirs([], ts);
      if more.NoFile? then Fail else ExecLoop([], more.rs, more.rest)
  }

  function ParsePipe<W>(ts: seq<Tok<W>>): (r: Parsed<W>)
    ensures r.Ok? ==> |r.rest| <= |ts|
    decreases |ts|, 2
  {
    var left := ParseExec(ts);
    if left.Fail? || !Starts(left.rest, '|') then left
    else
      var right := ParsePipe(left.rest[1..]);
      if right.Fail? then Fail else Ok(Pipe(left.cmd, right.cmd), right.rest)
  }

  function Amps<W>(cmd: Cmd<W>, ts: seq<Tok<W>>): (r: Parsed<W>)
    ensures r.Ok? && |r.rest| <= |ts| && !Starts(r.rest, '&')
    decreases |ts|
  {
    if Starts(ts, '&') then Amps(Back(cmd), ts[1..]) else Ok(cmd, ts)
  }

  function ParseLine<W>(ts: seq<Tok<W>>): (r: Parsed<W>)
    ensures r.Ok? ==> |r.rest| <= |ts|
    decreases |ts|, 3
  {
    var first := ParsePipe(ts);
    if first.Fail? then Fail
    else
      var line := Amps(first.cmd, first.rest);
      if !Starts(line.rest, ';') then line
      else
        var next := ParseLine(line.rest[1..]);
        if next.Fail? then Fail else Ok(List(line.cmd, next.cmd), next.rest)
  }

  // ---------------------------------------------------------------- printing

  function Words<W>(args: seq<W>): seq<Tok<W>> {
    seq(|args|, i requires 0 <= i < |args| => Word(args[i]))
  }

  /** A command as tokens, with parentheses around every operand that is not a simple command. */
  function Toks<W>(c: Cmd<W>): seq<Tok<W>>
    decreases c, 0
  {
    match c
    case Exec(args) => Words(args)
    case Redir(d, f, m) => Operand(d) + [Sym(m), Word(f)]
    case Pipe(l, r) => Paren(l) + [Sym('|')] + Paren(r)
    case List(l, r) => Paren(l) + [Sym(';')] + Paren(r)
    case Back(d) => Paren(d) + [Sym('&')]
  }

  function Paren<W>(c: Cmd<W>): seq<Tok<W>>
    decreases c, 1
  {
    [Sym('(')] + Toks(c) + [Sym(')')]
  }

  function Operand<W>(c: Cmd<W>): seq<Tok<W>>
    decreases c, 2
  {
    if c.Exec? || c.Redir? then Toks(c) else Paren(c)
  }

  /** At most 9 arguments, and the three kinds of redirection. */
  predicate WellFormed<W>(c: Cmd<W>) {
    match c
    case Exec(args) => |args| < MAXARGS
    case Redir(d, _, m) => WellFormed(d) && (m == '<' || m == '>' || m == '+')
    case Pipe(l, r) => WellFormed(l) && WellFormed(r)
    case List(l, r) => WellFormed(l) && WellFormed(r)
    case Back(d) => WellFormed(d)
  }

  // ---------------------------------------------------------------- round trip

  /** The command under all redirections, and the redirections. */
  function Base<W>(c: Cmd<W>): Cmd<W> {
    if c.Redir? then Base(c.cmd) else c
  }

  function Layers<W>(c: Cmd<W>): seq<Redirection<W>> {
    if c.Redir? then Layers(c.cmd) + [Redirection(c.file, c.mode)] else []
  }

  function RedirToks<W>(rs: seq<Redirection<W>>): seq<Tok<W>> {
    if rs == [] then [] else RedirToks(rs[..|rs| - 1]) + [Sym(rs[|rs| - 1].mode), Word(rs[|rs| - 1].file)]
  }

  lemma {:induction false} Unwrap<W>(c: Cmd<W>)
    ensures Wrap(Base(c), Layers(c)) == c
    ensures Operand(c) == Operand(Base(c)) + RedirToks(Layers(c))
  {
    if c.Redir? {
      Unwrap(c.cmd);
      var rs := Layers(c);
      assert rs[..|rs| - 1] == Layers(c.cmd);
      assert Operand(Base(c)) + (RedirToks(Layers(c.cmd)) + [Sym(c.mode), Word(c.file)])
          == (Operand(Base(c)) + RedirToks(Layers(c.cmd))) + [Sym(c.mode), Word(c.file)];
    } else {
      assert Operand(c) + [] == Operand(c);
    }
  }

  predicate Modes<W>(rs: seq<Redirection<W>>) {
    forall i :: 0 <= i < |rs| ==> rs[i].mode == '<' || rs[i].mode == '>' || rs[i].mode == '+'
  }

  lemma {:induction false} LayersModes<W>(c: Cmd<W>)
    requires WellFormed(c)
    ensures Modes(Layers(c)) && WellFormed(Base(c)) && !Base(c).Redir?
  {
    if c.Redir? { LayersModes(c.cmd); }
  }

  lemma {:induction false} RedirToksFront<W>(rs: seq<Redirection<W>>)
    requires rs != []
    ensures RedirToks(rs) == [Sym(rs[0].mode), Word(rs[0].file)] + RedirToks(rs[1..])
  {
    if |rs| > 1 {
      var last := rs[|rs| - 1];
      RedirToksFront(rs[..|rs| - 1]);
      assert rs[..|rs| - 1][1..] == rs[1..][..|rs| - 2];
      assert rs[1..][|rs| - 2] == last;
      assert [Sym(rs[0].mode), Word(rs[0].file)] + (RedirToks(rs[1..][..|rs| - 2]) + [Sym(last.mode), Word(last.file)])
          == ([Sym(rs[0].mode), Word(rs[0].file)] + RedirToks(rs[1..][..|rs| - 2])) + [Sym(last.mode), Word(last.file)];
    }
  }

  lemma {:induction false} RedirsBack<W>(rs0: seq<Redirection<W>>, rs: seq<Redirection<W>>, rest: seq<Tok<W>>)
    requires Modes(rs) && !StartsRedir(rest)
    ensures Redirs(rs0, RedirToks(rs) + rest) == Redirected(rs0 + rs, rest)
    decreases |rs|
  {
    var ts := RedirToks(rs) + rest;
    if rs == [] {
      assert ts == rest && rs0 + rs == rs0;
    } else {
      RedirToksFront(rs);
      RedirsBack(rs0 + [rs[0]], rs[1..], rest);
      assert ts[0] == Sym(rs[0].mode) && ts[1] == Word(rs[0].file) && ts[2..] == RedirToks(rs[1..]) + rest;
      assert rs0 + rs == rs0 + [rs[0]] + rs[1..];
      assert Redirection(rs[0].file, rs[0].mode) == rs[0];
    }
  }

  /** The arguments from i on, redirections, and what follows. */
  function Tail<W>(args: seq<W>, i: nat, rs: seq<Redirection<W>>, rest: seq<Tok<W>>): seq<Tok<W>>
    requires i <= |args|
  {
    Words(args[i..]) + (RedirToks(rs) + rest)
  }

  lemma TailStep<W>(args: seq<W>, i: nat, rs: seq<Redirection<W>>, rest: seq<Tok<W>>)
    requires i < |args|
    ensures Tail(args, i, rs, rest) != [] && Tail(args, i, rs, rest)[0] == Word(args[i])
    ensures Tail(args, i, rs, rest)[1..] == Tail(args, i + 1, rs, rest)
  {
    assert Words(args[i..])[1..] == Words(args[i + 1..]);
  }

  lemma {:induction false} ExecBack<W>(args: seq<W>, i: nat, rs: seq<Redirection<W>>, rest: seq<Tok<W>>)
    requires i < |args| < MAXARGS && Modes(rs) && Stops(rest)
    ensures ExecLoop(args[..i], [], Tail(args, i, rs, rest)) == Ok(Wrap(Exec(args), rs), rest)
    decreases |args| - i
  {
    TailStep(args, i, rs, rest);
    assert args[..i] + [args[i]] == args[..i + 1];
    if i + 1 < |args| {
      TailStep(args, i + 1, rs, rest);
      ExecBack(args, i + 1, rs, rest);
    } else {
      assert args[..i + 1] == args && Tail(args, i + 1, rs, rest) == RedirToks(rs) + rest;
      RedirsBack([], rs, rest);
      assert [] + rs == rs;
    }
  }

  /** A simple command with its redirections. */
  lemma SimpleBack<W>(args: seq<W>, rs: seq<Redirection<W>>, rest: seq<Tok<W>>)
    requires |args| < MAXARGS && Modes(rs) && Stops(rest)
    ensures ParseExec(Tail(args, 0, rs, rest)) == Ok(Wrap(Exec(args), rs), rest)
  {
    if args == [] {
      NoArgsBack<W>(rs, rest);
      assert Tail(args, 0, rs, rest) == RedirToks(rs) + rest;
    } else {
      TailStep(args, 0, rs, rest);
      ExecBack(args, 0, rs, rest);
      assert args[..0] == [];
    }
  }

  lemma NoArgsBack<W>(rs: seq<Redirection<W>>, rest: seq<Tok<W>>)
    requires Modes(rs) && Stops(rest)
    ensures ParseExec(RedirToks(rs) + rest) == Ok(Wrap(Exec([]), rs), rest)
  {
    RedirsBack([], rs, rest);
    assert [] + rs == rs;
    if rs != [] { RedirToksFront(rs); } else { assert RedirToks(rs) + rest == rest; }
  }

  /** What may follow a whole line: nothing, or a closing parenthesis. */
  predicate Closed<W>(ts: seq<Tok<W>>) {
    ts == [] || Starts(ts, ')')
  }

  /** A parenthesised command with redirections. */
  lemma BlockBack<W>(c: Cmd<W>, rs: seq<Redirection<W>>, rest: seq<Tok<W>>)
    requires Modes(rs) && Stops(rest)
    requires ParseLine(Toks(c) + ([Sym(')')] + (RedirToks(rs) + rest))) == Ok(c, [Sym(')')] + (RedirToks(rs) + rest))
    ensures ParseExec(Paren(c) + (RedirToks(rs) + rest)) == Ok(Wrap(c, rs), rest)
  {
    ParenTail(c, RedirToks(rs) + rest);
    RedirsBack([], rs, rest);
    assert [] + rs == rs;
  }

  lemma ParenTail<W>(c: Cmd<W>, rest: seq<Tok<W>>)
    ensures Starts(Paren(c) + rest, '(') && (Paren(c) + rest)[1..] == Toks(c) + ([Sym(')')] + rest)
    ensures Starts([Sym(')')] + rest, ')') && ([Sym(')')] + rest)[1..] == rest
  {
  }

  lemma {:induction false} BaseSmaller<W>(c: Cmd<W>)
    ensures c.Redir? ==> Base(c) < c
  {
    if c.Redir? { BaseSmaller(c.cmd); }
  }

  /** A command without an operator in it: simple or a block, with redirections. */
  lemma {:induction false} OperandBack<W>(c: Cmd<W>, rest: seq<Tok<W>>)
    requires WellFormed(c) && Stops(rest) && (c.Exec? || c.Redir?)
    ensures ParseExec(Toks(c) + rest) == Ok(c, rest)
    decreases c, 0
  {
    var b, rs := Base(c), Layers(c);
    Unwrap(c);
    LayersModes(c);
    BaseSmaller(c);
    assert Toks(c) + rest == Operand(b) + (RedirToks(rs) + rest);
    if b.Exec? {
      SimpleBack(b.args, rs, rest);
      assert b.args[0..] == b.args;
    } else {
      LineBack(b, [Sym(')')] + (RedirToks(rs) + rest));
      BlockBack(b, rs, rest);
    }
  }

  lemma {:induction false} ParenBack<W>(c: Cmd<W>, rest: seq<Tok<W>>)
    requires WellFormed(c) && Stops(rest)
    ensures ParseExec(Paren(c) + rest) == Ok(c, rest)
    decreases c, 2
  {
    var none: seq<Redirection<W>> := [];
    assert RedirToks(none) + rest == rest && Wrap(c, none) == c;
    LineBack(c, [Sym(')')] + rest);
    BlockBack(c, none, rest);
  }

  /** No operator follows. */
  lemma JustExec<W>(ts: seq<Tok<W>>, c: Cmd<W>, rest: seq<Tok<W>>)
    requires ParseExec(ts) == Ok(c, rest)
    ensures !Starts(rest, '|') ==> ParsePipe(ts) == Ok(c, rest)
    ensures Closed(rest) ==> ParseLine(ts) == Ok(c, rest)
  {
  }

  lemma PipeBack<W>(ts: seq<Tok<W>>, l: Cmd<W>, r: Cmd<W>, more: seq<Tok<W>>, rest: seq<Tok<W>>)
    requires ParseExec(ts) == Ok(l, [Sym('|')] + more) && ParseExec(more) == Ok(r, rest) && Closed(rest)
    ensures ParseLine(ts) == Ok(Pipe(l, r), rest)
  {
    JustExec(more, r, rest);
    assert ([Sym('|')] + more)[1..] == more;
  }

  lemma ListBack<W>(ts: seq<Tok<W>>, l: Cmd<W>, r: Cmd<W>, more: seq<Tok<W>>, rest: seq<Tok<W>>)
    requires ParseExec(ts) == Ok(l, [Sym(';')] + more) && ParseExec(more) == Ok(r, rest) && Closed(rest)
    ensures ParseLine(ts) == Ok(List(l, r), rest)
  {
    JustExec(ts, l, [Sym(';')] + more);
    JustExec(more, r, rest);
    assert ([Sym(';')] + more)[1..] == more;
  }

  lemma BackBack<W>(ts: seq<Tok<W>>, d: Cmd<W>, rest: seq<Tok<W>>)
    requires ParseExec(ts) == Ok(d, [Sym('&')] + rest) && Closed(rest)
    ensures ParseLine(ts) == Ok(Back(d), rest)
  {
    JustExec(ts, d, [Sym('&')] + rest);
    assert ([Sym('&')] + rest)[1..] == rest;
    assert Amps(Back(d), rest) == Ok(Back(d), rest);
  }

  /** A whole line: parsing its printing gives the command back. */
  lemma {:induction false} LineBack<W>(c: Cmd<W>, rest: seq<Tok<W>>)
    requires WellFormed(c) && Closed(rest)
    ensures ParseLine(Toks(c) + rest) == Ok(c, rest)
    decreases c, 1
  {
    var ts := Toks(c) + rest;
    match c
    case Pipe(l, r) =>
      var more := Paren(r) + rest;
      assert ts == Paren(l) + ([Sym('|')] + more);
      ParenBack(l, [Sym('|')] + more);
      ParenBack(r, rest);
      PipeBack(ts, l, r, more, rest);
    case List(l, r) =>
      var more := Paren(r) + rest;
      assert ts == Paren(l) + ([Sym(';')] + more);
      ParenBack(l, [Sym(';')] + more);
      ParenBack(r, rest);
      ListBack(ts, l, r, more, rest);
    case Back(d) =>
      assert ts == Paren(d) + ([Sym('&')] + rest);
      ParenBack(d, [Sym('&')] + rest);
      BackBack(ts, d, rest);
    case _ =>
      OperandBack(c, rest);
      JustExec(ts, c, rest);
  }

  /** Parsing the fully parenthesised printing of a command gives the command back. */
  lemma RoundTrip<W>(c: Cmd<W>)
    requires WellFormed(c)
    ensures ParseLine(Toks(c)) == Ok(c, [])
  {
    LineBack(c, []);
    assert Toks(c) + [] == Toks(c);
  }
}
