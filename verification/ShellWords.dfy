/** The parser of user/sh.c does not look at words: it commutes with any change of words, and every word of
    its result is a word of its input. */
module ShellWords {
  import opened ShellGrammar

  function MapTok<V, W>(f: V -> W, t: Tok<V>): Tok<W> {
    match t case Sym(c) => Sym(c) case Word(w) => Word(f(w))
  }

  function MapToks<V, W>(f: V -> W, ts: seq<Tok<V>>): seq<Tok<W>> {
    seq(|ts|, i requires 0 <= i < |ts| => MapTok(f, ts[i]))
  }

  function MapSeq<V, W>(f: V -> W, s: seq<V>): seq<W> {
    seq(|s|, i requires 0 <= i < |s| => f(s[i]))
  }

  function MapRs<V, W>(f: V -> W, rs: seq<Redirection<V>>): seq<Redirection<W>> {
    seq(|rs|, i requires 0 <= i < |rs| => Redirection(f(rs[i].file), rs[i].mode))
  }

  function MapCmd<V, W>(f: V -> W, c: Cmd<V>): Cmd<W> {
    match c
    case Exec(args) => Exec(MapSeq(f, args))
    case Redir(d, file, m) => Redir(MapCmd(f, d), f(file), m)
    case Pipe(l, r) => Pipe(MapCmd(f, l), MapCmd(f, r))
    case List(l, r) => List(MapCmd(f, l), MapCmd(f, r))
    case Back(d) => Back(MapCmd(f, d))
  }

  function MapParsed<V, W>(f: V -> W, p: Parsed<V>): Parsed<W> {
    if p.Fail? then Fail else Ok(MapCmd(f, p.cmd), MapToks(f, p.rest))
  }

  /** All words of a command, or of tokens, are in a set. */
  ghost predicate WordsIn<V(!new)>(c: Cmd<V>, good: iset<V>) {
    match c
    case Exec(args) => forall i :: 0 <= i < |args| ==> args[i] in good
    case Redir(d, file, _) => WordsIn(d, good) && file in good
    case Pipe(l, r) => WordsIn(l, good) && WordsIn(r, good)
    case List(l, r) => WordsIn(l, good) && WordsIn(r, good)
    case Back(d) => WordsIn(d, good)
  }

  ghost predicate AllIn<V(!new)>(ts: seq<Tok<V>>, good: iset<V>) {
    forall i :: 0 <= i < |ts| && ts[i].Word? ==> ts[i].w in good
  }

  ghost predicate FilesIn<V(!new)>(rs: seq<Redirection<V>>, good: iset<V>) {
    forall i :: 0 <= i < |rs| ==> rs[i].file in good
  }

  /** A result is what parsing the changed words gives, and has only words of the input. */
  ghost predicate Natural<V(!new), W(!new)>(f: V -> W, good: iset<V>, p: Parsed<V>, q: Parsed<W>) {
    q == MapParsed(f, p) && (p.Ok? ==> WordsIn(p.cmd, good) && AllIn(p.rest, good))
  }

  lemma {:induction false} WrapMap<V(!new), W(!new)>(f: V -> W, good: iset<V>, c: Cmd<V>, rs: seq<Redirection<V>>)
    requires WordsIn(c, good) && FilesIn(rs, good)
    ensures MapCmd(f, Wrap(c, rs)) == Wrap(MapCmd(f, c), MapRs(f, rs)) && WordsIn(Wrap(c, rs), good)
    decreases |rs|
  {
    if rs != [] {
      WrapMap(f, good, c, rs[..|rs| - 1]);
      assert MapRs(f, rs)[..|rs| - 1] == MapRs(f, rs[..|rs| - 1]);
    }
  }

  lemma {:induction false} RedirsMap<V(!new), W(!new)>(f: V -> W, good: iset<V>, rs: seq<Redirection<V>>,
                                                       ts: seq<Tok<V>>)
    requires FilesIn(rs, good) && AllIn(ts, good)
    ensures var p, q := Redirs(rs, ts), Redirs(MapRs(f, rs), MapToks(f, ts));
            && (p.NoFile? <==> q.NoFile?)
            && (p.Redirected? ==>
                 && q == Redirected(MapRs(f, p.rs), MapToks(f, p.rest)) && FilesIn(p.rs, good)
                 && AllIn(p.rest, good))
    decreases |ts|
  {
    if StartsRedir(ts) && |ts| >= 2 && ts[1].Word? {
      var rs' := rs + [Redirection(ts[1].w, ts[0].c)];
      RedirsMap(f, good, rs', ts[2..]);
      assert MapToks(f, ts)[2..] == MapToks(f, ts[2..]);
      assert MapRs(f, rs) + [Redirection(f(ts[1].w), ts[0].c)] == MapRs(f, rs');
    }
  }

  lemma {:induction false} ExecLoopMap<V(!new), W(!new)>(f: V -> W, good: iset<V>, args: seq<V>,
                                                         rs: seq<Redirection<V>>, ts: seq<Tok<V>>)
    requires WordsIn(Exec(args), good) && FilesIn(rs, good) && AllIn(ts, good)
    ensures Natural(f, good, ExecLoop(args, rs, ts), ExecLoop(MapSeq(f, args), MapRs(f, rs), MapToks(f, ts)))
    decreases |ts|
  {
    if Stops(ts) {
      WrapMap(f, good, Exec(args), rs);
    } else if ts[0].Word? && |args| + 1 < MAXARGS {
      RedirsMap(f, good, rs, ts[1..]);
      assert MapToks(f, ts)[1..] == MapToks(f, ts[1..]);
      var more := Redirs(rs, ts[1..]);
      if more.Redirected? {
        ExecLoopMap(f, good, args + [ts[0].w], more.rs, more.rest);
        assert MapSeq(f, args) + [f(ts[0].w)] == MapSeq(f, args + [ts[0].w]);
      }
    }
  }

  lemma {:induction false} BlockMap<V(!new), W(!new)>(f: V -> W, good: iset<V>, ts: seq<Tok<V>>)
    requires Starts(ts, '(') && AllIn(ts, good)
    ensures Natural(f, good, ParseBlock(ts), ParseBlock(MapToks(f, ts)))
    decreases |ts|, 0
  {
    LineMap(f, good, ts[1..]);
    assert MapToks(f, ts)[1..] == MapToks(f, ts[1..]);
    var inner := ParseLine(ts[1..]);
    if inner.Ok? && Starts(inner.rest, ')') {
      assert MapToks(f, inner.rest)[1..] == MapToks(f, inner.rest[1..]);
      RedirsMap(f, good, [], inner.rest[1..]);
      assert MapRs(f, []) == [];
      var more := Redirs([], inner.rest[1..]);
      if more.Redirected? { WrapMap(f, good, inner.cmd, more.rs); }
    }
  }

  lemma {:induction false} ExecMap<V(!new), W(!new)>(f: V -> W, good: iset<V>, ts: seq<Tok<V>>)
    requires AllIn(ts, good)
    ensures Natural(f, good, ParseExec(ts), ParseExec(MapToks(f, ts)))
    decreases |ts|, 1
  {
    if Starts(ts, '(') {
      BlockMap(f, good, ts);
    } else {
      RedirsMap(f, good, [], ts);
      assert MapRs(f, []) == [] && MapSeq(f, []) == [];
      var more := Redirs([], ts);
      if more.Redirected? { ExecLoopMap(f, good, [], more.rs, more.rest); }
    }
  }

  lemma {:induction false} PipeMap<V(!new), W(!new)>(f: V -> W, good: iset<V>, ts: seq<Tok<V>>)
    requires AllIn(ts, good)
    ensures Natural(f, good, ParsePipe(ts), ParsePipe(MapToks(f, ts)))
    decreases |ts|, 2
  {
    ExecMap(f, good, ts);
    var left := ParseExec(ts);
    if left.Ok? && Starts(left.rest, '|') {
      PipeMap(f, good, left.rest[1..]);
      assert MapToks(f, left.rest)[1..] == MapToks(f, left.rest[1..]);
    }
  }

  lemma {:induction false} AmpsMap<V(!new), W(!new)>(f: V -> W, good: iset<V>, c: Cmd<V>, ts: seq<Tok<V>>)
    requires WordsIn(c, good) && AllIn(ts, good)
    ensures Natural(f, good, Amps(c, ts), Amps(MapCmd(f, c), MapToks(f, ts)))
    decreases |ts|
  {
    if Starts(ts, '&') {
      AmpsMap(f, good, Back(c), ts[1..]);
      assert MapToks(f, ts)[1..] == MapToks(f, ts[1..]);
    }
  }

  lemma {:induction false} LineMap<V(!new), W(!new)>(f: V -> W, good: iset<V>, ts: seq<Tok<V>>)
    requires AllIn(ts, good)
    ensures Natural(f, good, ParseLine(ts), ParseLine(MapToks(f, ts)))
    decreases |ts|, 3
  {
    PipeMap(f, good, ts);
    var first := ParsePipe(ts);
    if first.Ok? {
      AmpsMap(f, good, first.cmd, first.rest);
      var line := Amps(first.cmd, first.rest);
      if Starts(line.rest, ';') {
        LineMap(f, good, line.rest[1..]);
        assert MapToks(f, line.rest)[1..] == MapToks(f, line.rest[1..]);
      }
    }
  }
}
