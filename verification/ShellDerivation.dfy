/** The shell's language as a grammar, without a parser: which tokens stand for which command.  The parser of user/sh.c,
    on tokens, is proved to accept exactly this language and to give each line its one command.

      line  =  pipe  &*  ( ; line )?
      pipe  =  exec  ( | pipe )?
      exec  =  ( line )  redirection*   or   words and redirections in any order, fewer than MAXARGS words */
module ShellDerivation {
  import opened ShellGrammar

  function Backs<W>(c: Cmd<W>, n: nat): Cmd<W>
    decreases n
  {
    if n == 0 then c else Backs(Back(c), n - 1)
  }

  predicate IsSym<W>(t: Tok<W>, c: char) {
    t.Sym? && t.c == c
  }

  /** ts is a sequence of redirections. */
  ghost predicate RedirsD<W>(ts: seq<Tok<W>>, rs: seq<Redirection<W>>)
    decreases |ts|
  {
    if rs == [] then ts == []
    else
      && |ts| >= 2 && StartsRedir(ts) && ts[1].Word? && rs[0] == Redirection(ts[1].w, ts[0].c)
      && RedirsD(ts[2..], rs[1..])
  }

  /** ts is words and redirections in any order. */
  ghost predicate ItemsD<W>(ts: seq<Tok<W>>, args: seq<W>, rs: seq<Redirection<W>>)
    decreases |ts|
  {
    if ts == [] then args == [] && rs == []
    else if ts[0].Word? then args != [] && args[0] == ts[0].w && ItemsD(ts[1..], args[1..], rs)
    else
      && |ts| >= 2 && StartsRedir(ts) && ts[1].Word? && rs != [] && rs[0] == Redirection(ts[1].w, ts[0].c)
      && ItemsD(ts[2..], args, rs[1..])
  }

  ghost predicate SimpleD<W>(ts: seq<Tok<W>>, args: seq<W>, rs: seq<Redirection<W>>, c: Cmd<W>) {
    |args| < MAXARGS && ItemsD(ts, args, rs) && c == Wrap(Exec(args), rs)
  }

  /** A line in parentheses, up to token m, and redirections. */
  ghost predicate BlockD<W(!new)>(ts: seq<Tok<W>>, m: nat, d: Cmd<W>, rs: seq<Redirection<W>>, c: Cmd<W>)
    decreases |ts|, 0
  {
    && 0 < m < |ts| && IsSym(ts[0], '(') && IsSym(ts[m], ')')
    && LineD(ts[1..m], d) && RedirsD(ts[m + 1..], rs) && c == Wrap(d, rs)
  }

  ghost predicate ExecD<W(!new)>(ts: seq<Tok<W>>, c: Cmd<W>)
    decreases |ts|, 1
  {
    || (exists args, rs :: SimpleD(ts, args, rs, c))
    || (exists m: nat, d, rs :: BlockD(ts, m, d, rs, c))
  }

  /** Two parts with a | at token m. */
  ghost predicate SplitD<W(!new)>(ts: seq<Tok<W>>, m: nat, c: Cmd<W>)
    decreases |ts|, 2
  {
    m < |ts| && IsSym(ts[m], '|') && c.Pipe? && ExecD(ts[..m], c.left) && PipeD(ts[m + 1..], c.right)
  }

  ghost predicate PipeD<W(!new)>(ts: seq<Tok<W>>, c: Cmd<W>)
    decreases |ts|, 3
  {
    ExecD(ts, c) || exists m: nat :: SplitD(ts, m, c)
  }

  predicate AmpsD<W>(ts: seq<Tok<W>>, m: nat, n: nat) {
    m + n <= |ts| && forall i :: m <= i < m + n ==> IsSym(ts[i], '&')
  }

  /** A pipeline p of m tokens, n times &, and the rest of the line after a ; if there is one. */
  ghost predicate LineOf<W(!new)>(ts: seq<Tok<W>>, m: nat, n: nat, p: Cmd<W>, c: Cmd<W>)
    decreases |ts|, 4
  {
    && AmpsD(ts, m, n) && PipeD(ts[..m], p)
    && if m + n == |ts| then c == Backs(p, n)
       else IsSym(ts[m + n], ';') && c.List? && c.left == Backs(p, n) && LineD(ts[m + n + 1..], c.right)
  }

  ghost predicate LineD<W(!new)>(ts: seq<Tok<W>>, c: Cmd<W>)
    decreases |ts|, 5
  {
    exists m: nat, n: nat, p :: LineOf(ts, m, n, p, c)
  }

  // ---------------------------------------------------------------- the parser finds every derivation

  /** What can come after a pipeline, and after a line. */
  predicate AfterPipe<W>(ts: seq<Tok<W>>) {
    Stops(ts) && !Starts(ts, '|')
  }

  predicate AfterLine<W>(ts: seq<Tok<W>>) {
    ts == [] || Starts(ts, ')')
  }

  lemma {:induction false} RedirsFound<W>(rs0: seq<Redirection<W>>, x: seq<Tok<W>>, rs: seq<Redirection<W>>,
                                          r: seq<Tok<W>>)
    requires RedirsD(x, rs) && Stops(r)
    ensures Redirs(rs0, x + r) == Redirected(rs0 + rs, r)
    decreases |x|
  {
    if rs == [] {
      assert x + r == r && rs0 + rs == rs0;
    } else {
      RedirsFound(rs0 + [rs[0]], x[2..], rs[1..], r);
      assert (x + r)[2..] == x[2..] + r && rs0 + [rs[0]] + rs[1..] == rs0 + rs;
    }
  }

  /** parseredirs(), and then the loop of parseexec(). */
  function Rest<W>(args: seq<W>, rs: seq<Redirection<W>>, ts: seq<Tok<W>>): Parsed<W> {
    var more := Redirs(rs, ts);
    if more.NoFile? then Fail else ExecLoop(args, more.rs, more.rest)
  }

  lemma NoItem<W>(args: seq<W>, rs: seq<Redirection<W>>, ts: seq<Tok<W>>)
    requires Stops(ts)
    ensures Rest(args, rs, ts) == Ok(Wrap(Exec(args), rs), ts)
  {
  }

  lemma WordItem<W>(args: seq<W>, rs: seq<Redirection<W>>, ts: seq<Tok<W>>)
    requires ts != [] && ts[0].Word? && |args| + 1 < MAXARGS
    ensures Rest(args, rs, ts) == Rest(args + [ts[0].w], rs, ts[1..])
  {
  }

  lemma RedirItem<W>(args: seq<W>, rs: seq<Redirection<W>>, ts: seq<Tok<W>>)
    requires |ts| >= 2 && StartsRedir(ts) && ts[1].Word?
    ensures Rest(args, rs, ts) == Rest(args, rs + [Redirection(ts[1].w, ts[0].c)], ts[2..])
  {
  }

  lemma {:induction false} ItemsFound<W>(args0: seq<W>, rs0: seq<Redirection<W>>, x: seq<Tok<W>>, args: seq<W>,
                                         rs: seq<Redirection<W>>, r: seq<Tok<W>>)
    requires ItemsD(x, args, rs) && |args0| + |args| < MAXARGS && Stops(r)
    ensures Rest(args0, rs0, x + r) == Ok(Wrap(Exec(args0 + args), rs0 + rs), r)
    decreases |x|
  {
    if x == [] {
      assert x + r == r && rs0 + rs == rs0 && args0 + args == args0;
      NoItem(args0, rs0, r);
    } else if x[0].Word? {
      WordItem(args0, rs0, x + r);
      assert (x + r)[1..] == x[1..] + r && args0 + [args[0]] + args[1..] == args0 + args;
      ItemsFound(args0 + [args[0]], rs0, x[1..], args[1..], rs, r);
    } else {
      RedirItem(args0, rs0, x + r);
      assert (x + r)[2..] == x[2..] + r && rs0 + [rs[0]] + rs[1..] == rs0 + rs;
      ItemsFound(args0, rs0 + [rs[0]], x[2..], args, rs[1..], r);
    }
  }

  lemma SimpleFound<W>(x: seq<Tok<W>>, args: seq<W>, rs: seq<Redirection<W>>, c: Cmd<W>, r: seq<Tok<W>>)
    requires SimpleD(x, args, rs, c) && Stops(r)
    ensures ParseExec(x + r) == Ok(c, r)
  {
    assert [] + args == args && [] + rs == rs;
    ItemsFound([], [], x, args, rs, r);
    assert !Starts(x + r, '(');
  }

  lemma {:induction false} AmpsFound<W>(c: Cmd<W>, ts: seq<Tok<W>>, n: nat)
    requires AmpsD(ts, 0, n) && !Starts(ts[n..], '&')
    ensures Amps(c, ts) == Ok(Backs(c, n), ts[n..])
    decreases n
  {
    if n > 0 {
      AmpsFound(Back(c), ts[1..], n - 1);
      assert ts[1..][n - 1..] == ts[n..];
    }
  }

  lemma BlockParsed<W>(ts: seq<Tok<W>>, d: Cmd<W>, after: seq<Tok<W>>, rs: seq<Redirection<W>>, r: seq<Tok<W>>)
    requires Starts(ts, '(') && ParseLine(ts[1..]) == Ok(d, after) && Starts(after, ')')
    requires Redirs([], after[1..]) == Redirected(rs, r)
    ensures ParseExec(ts) == Ok(Wrap(d, rs), r)
  {
  }

  lemma {:induction false} BlockFound<W(!new)>(x: seq<Tok<W>>, m: nat, d: Cmd<W>, rs: seq<Redirection<W>>, c: Cmd<W>,
                                               r: seq<Tok<W>>)
    requires BlockD(x, m, d, rs, c) && Stops(r)
    ensures ParseExec(x + r) == Ok(c, r)
    decreases |x|, 0
  {
    var inner, after := x[1..m], x[m..] + r;
    LineFound(inner, d, after);
    assert (x + r)[1..] == inner + after;
    assert after[1..] == x[m + 1..] + r;
    assert [] + rs == rs;
    RedirsFound([], x[m + 1..], rs, r);
    BlockParsed(x + r, d, after, rs, r);
  }

  lemma {:induction false} ExecFound<W(!new)>(x: seq<Tok<W>>, c: Cmd<W>, r: seq<Tok<W>>)
    requires ExecD(x, c) && Stops(r)
    ensures ParseExec(x + r) == Ok(c, r)
    decreases |x|, 1
  {
    if args, rs :| SimpleD(x, args, rs, c) {
      SimpleFound(x, args, rs, c, r);
    } else {
      var m: nat, d, rs :| BlockD(x, m, d, rs, c);
      BlockFound(x, m, d, rs, c, r);
    }
  }

  lemma {:induction false} PipeFound<W(!new)>(x: seq<Tok<W>>, c: Cmd<W>, r: seq<Tok<W>>)
    requires PipeD(x, c) && AfterPipe(r)
    ensures ParsePipe(x + r) == Ok(c, r)
    decreases |x|, 2
  {
    if ExecD(x, c) {
      ExecFound(x, c, r);
    } else {
      var m: nat :| SplitD(x, m, c);
      var after := x[m..] + r;
      ExecFound(x[..m], c.left, after);
      assert x + r == x[..m] + after && after[1..] == x[m + 1..] + r;
      PipeFound(x[m + 1..], c.right, r);
    }
  }

  lemma LineEnds<W>(ts: seq<Tok<W>>, p: Cmd<W>, after: seq<Tok<W>>, q: Cmd<W>, r: seq<Tok<W>>)
    requires ParsePipe(ts) == Ok(p, after) && Amps(p, after) == Ok(q, r) && !Starts(r, ';')
    ensures ParseLine(ts) == Ok(q, r)
  {
  }

  lemma LineContinues<W>(ts: seq<Tok<W>>, p: Cmd<W>, after: seq<Tok<W>>, q: Cmd<W>, more: seq<Tok<W>>, d: Cmd<W>,
                         r: seq<Tok<W>>)
    requires ParsePipe(ts) == Ok(p, after) && Amps(p, after) == Ok(q, more) && Starts(more, ';')
    requires ParseLine(more[1..]) == Ok(d, r)
    ensures ParseLine(ts) == Ok(List(q, d), r)
  {
  }

  /** The tokens after the pipeline of a line. */
  lemma AfterPipeline<W>(x: seq<Tok<W>>, m: nat, n: nat, r: seq<Tok<W>>)
    requires AmpsD(x, m, n) && AfterLine(r) && (m + n < |x| ==> IsSym(x[m + n], ';'))
    ensures var after := x[m..] + r;
            && x + r == x[..m] + after && AfterPipe(after) && AmpsD(after, 0, n) && after[n..] == x[m + n..] + r
            && !Starts(after[n..], '&') && (m + n == |x| ==> after[n..] == r)
            && (m + n < |x| ==> Starts(after[n..], ';') && after[n..][1..] == x[m + n + 1..] + r)
  {
    var after := x[m..] + r;
    assert forall i :: 0 <= i < n ==> after[i] == x[m + i];
    assert after[n..] == x[m + n..] + r;
  }

  lemma {:induction false} LineOfFound<W(!new)>(x: seq<Tok<W>>, m: nat, n: nat, p: Cmd<W>, c: Cmd<W>, r: seq<Tok<W>>)
    requires LineOf(x, m, n, p, c) && AfterLine(r)
    ensures ParseLine(x + r) == Ok(c, r)
    decreases |x|, 3
  {
    var after := x[m..] + r;
    AfterPipeline(x, m, n, r);
    PipeFound(x[..m], p, after);
    AmpsFound(p, after, n);
    if m + n < |x| {
      LineFound(x[m + n + 1..], c.right, r);
      LineContinues(x + r, p, after, Backs(p, n), after[n..], c.right, r);
    } else {
      LineEnds(x + r, p, after, Backs(p, n), r);
    }
  }

  lemma {:induction false} LineFound<W(!new)>(x: seq<Tok<W>>, c: Cmd<W>, r: seq<Tok<W>>)
    requires LineD(x, c) && AfterLine(r)
    ensures ParseLine(x + r) == Ok(c, r)
    decreases |x|, 4
  {
    var m: nat, n: nat, p :| LineOf(x, m, n, p, c);
    LineOfFound(x, m, n, p, c, r);
  }

  // ---------------------------------------------------------------- what the parser finds is a derivation

  lemma FirstTwo<W>(ts: seq<Tok<W>>, x: seq<Tok<W>>, r: seq<Tok<W>>)
    requires |ts| >= 2 && ts[2..] == x + r
    ensures ts == [ts[0], ts[1]] + x + r
  {
    assert ts == [ts[0], ts[1]] + ts[2..];
  }

  lemma FirstOne<W>(ts: seq<Tok<W>>, x: seq<Tok<W>>, r: seq<Tok<W>>)
    requires |ts| >= 1 && ts[1..] == x + r
    ensures ts == [ts[0]] + x + r
  {
    assert ts == [ts[0]] + ts[1..];
  }

  /** ts starts with the redirections x. */
  lemma {:induction false} RedirsSound<W>(rs0: seq<Redirection<W>>, ts: seq<Tok<W>>)
    returns (x: seq<Tok<W>>, rs: seq<Redirection<W>>)
    requires Redirs(rs0, ts).Redirected?
    ensures ts == x + Redirs(rs0, ts).rest && Redirs(rs0, ts).rs == rs0 + rs && RedirsD(x, rs)
    ensures rs0 == [] ==> Redirs(rs0, ts).rs == rs
    decreases |ts|
  {
    if !StartsRedir(ts) {
      x, rs := [], [];
      assert rs0 + rs == rs0;
    } else {
      var r := Redirection(ts[1].w, ts[0].c);
      var y, more := RedirsSound(rs0 + [r], ts[2..]);
      x, rs := [ts[0], ts[1]] + y, [r] + more;
      FirstTwo(ts, y, Redirs(rs0, ts).rest);
      assert rs0 + rs == rs0 + [r] + more && x[2..] == y && rs[1..] == more;
    }
  }

  /** ts starts with the simple command x. */
  ghost predicate SimpleAt<W>(args0: seq<W>, rs0: seq<Redirection<W>>, ts: seq<Tok<W>>, x: seq<Tok<W>>, args: seq<W>,
                              rs: seq<Redirection<W>>) {
    && ItemsD(x, args, rs) && |args0| + |args| < MAXARGS && Rest(args0, rs0, ts).Ok?
    && Rest(args0, rs0, ts).cmd == Wrap(Exec(args0 + args), rs0 + rs) && ts == x + Rest(args0, rs0, ts).rest
  }

  lemma SimpleEnd<W>(args0: seq<W>, rs0: seq<Redirection<W>>, ts: seq<Tok<W>>)
    requires Stops(ts) && |args0| < MAXARGS
    ensures SimpleAt(args0, rs0, ts, [], [], [])
  {
    NoItem(args0, rs0, ts);
    assert args0 + [] == args0 && rs0 + [] == rs0;
  }

  lemma SimpleWord<W>(args0: seq<W>, rs0: seq<Redirection<W>>, ts: seq<Tok<W>>, x: seq<Tok<W>>, args: seq<W>,
                      rs: seq<Redirection<W>>)
    requires ts != [] && ts[0].Word? && |args0| + 1 < MAXARGS && SimpleAt(args0 + [ts[0].w], rs0, ts[1..], x, args, rs)
    ensures SimpleAt(args0, rs0, ts, [ts[0]] + x, [ts[0].w] + args, rs)
  {
    WordItem(args0, rs0, ts);
    var w := ts[0].w;
    FirstOne(ts, x, Rest(args0, rs0, ts).rest);
    assert args0 + ([w] + args) == args0 + [w] + args && ([ts[0]] + x)[1..] == x && ([w] + args)[1..] == args;
  }

  lemma SimpleRedir<W>(args0: seq<W>, rs0: seq<Redirection<W>>, ts: seq<Tok<W>>, x: seq<Tok<W>>, args: seq<W>,
                       rs: seq<Redirection<W>>)
    requires |ts| >= 2 && StartsRedir(ts) && ts[1].Word?
    requires SimpleAt(args0, rs0 + [Redirection(ts[1].w, ts[0].c)], ts[2..], x, args, rs)
    ensures SimpleAt(args0, rs0, ts, [ts[0], ts[1]] + x, args, [Redirection(ts[1].w, ts[0].c)] + rs)
  {
    RedirItem(args0, rs0, ts);
    var r := Redirection(ts[1].w, ts[0].c);
    FirstTwo(ts, x, Rest(args0, rs0, ts).rest);
    assert rs0 + ([r] + rs) == rs0 + [r] + rs && ([ts[0], ts[1]] + x)[2..] == x && ([r] + rs)[1..] == rs;
  }

  lemma {:induction false} SimpleSound<W>(args0: seq<W>, rs0: seq<Redirection<W>>, ts: seq<Tok<W>>)
    returns (x: seq<Tok<W>>, args: seq<W>, rs: seq<Redirection<W>>)
    requires Rest(args0, rs0, ts).Ok? && |args0| < MAXARGS
    ensures SimpleAt(args0, rs0, ts, x, args, rs)
    decreases |ts|
  {
    if StartsRedir(ts) {
      RedirItem(args0, rs0, ts);
      var r := Redirection(ts[1].w, ts[0].c);
      var y, more;
      y, args, more := SimpleSound(args0, rs0 + [r], ts[2..]);
      x, rs := [ts[0], ts[1]] + y, [r] + more;
      SimpleRedir(args0, rs0, ts, y, args, more);
    } else if Stops(ts) {
      x, args, rs := [], [], [];
      SimpleEnd(args0, rs0, ts);
    } else {
      WordItem(args0, rs0, ts);
      var y, more;
      y, more, rs := SimpleSound(args0 + [ts[0].w], rs0, ts[1..]);
      x, args := [ts[0]] + y, [ts[0].w] + more;
      SimpleWord(args0, rs0, ts, y, more, rs);
    }
  }

  function Ampersands<W>(n: nat): seq<Tok<W>> {
    seq(n, _ => Sym('&'))
  }

  lemma {:induction false} AmpsSound<W>(c: Cmd<W>, ts: seq<Tok<W>>) returns (n: nat)
    ensures Amps(c, ts).Ok? && Amps(c, ts).cmd == Backs(c, n) && ts == Ampersands(n) + Amps(c, ts).rest
    decreases |ts|
  {
    n := 0;
    if Starts(ts, '&') {
      n := AmpsSound(Back(c), ts[1..]);
      FirstOne(ts, Ampersands(n), Amps(c, ts).rest);
      assert Ampersands<W>(n + 1) == [Sym('&')] + Ampersands(n);
      n := n + 1;
    }
  }

  // Derivations, put together.

  lemma BlockBuilt<W(!new)>(x: seq<Tok<W>>, d: Cmd<W>, y: seq<Tok<W>>, rs: seq<Redirection<W>>)
    requires LineD(x, d) && RedirsD(y, rs)
    ensures ExecD([Sym('(')] + x + [Sym(')')] + y, Wrap(d, rs))
  {
    var ts, m := [Sym('(')] + x + [Sym(')')] + y, |x| + 1;
    assert ts[1..m] == x && ts[m + 1..] == y;
    assert BlockD(ts, m, d, rs, Wrap(d, rs));
  }

  lemma PipeBuilt<W(!new)>(x: seq<Tok<W>>, c: Cmd<W>, y: seq<Tok<W>>, d: Cmd<W>)
    requires ExecD(x, c) && PipeD(y, d)
    ensures PipeD(x + [Sym('|')] + y, Pipe(c, d))
  {
    var ts := x + [Sym('|')] + y;
    assert ts[..|x|] == x && ts[|x| + 1..] == y;
    assert SplitD(ts, |x|, Pipe(c, d));
  }

  lemma LineEndBuilt<W(!new)>(x: seq<Tok<W>>, p: Cmd<W>, n: nat)
    requires PipeD(x, p)
    ensures LineD(x + Ampersands(n), Backs(p, n))
  {
    var ts := x + Ampersands(n);
    assert ts[..|x|] == x;
    assert LineOf(ts, |x|, n, p, Backs(p, n));
  }

  lemma LineBuilt<W(!new)>(x: seq<Tok<W>>, p: Cmd<W>, n: nat, y: seq<Tok<W>>, d: Cmd<W>)
    requires PipeD(x, p) && LineD(y, d)
    ensures LineD(x + Ampersands(n) + [Sym(';')] + y, List(Backs(p, n), d))
  {
    var ts := x + Ampersands(n) + [Sym(';')] + y;
    assert ts[..|x|] == x && ts[|x| + n + 1..] == y;
    assert LineOf(ts, |x|, n, p, List(Backs(p, n), d));
  }

  lemma BlockParts<W>(ts: seq<Tok<W>>)
    requires Starts(ts, '(') && ParseBlock(ts).Ok?
    ensures var inner := ParseLine(ts[1..]);
            && inner.Ok? && Starts(inner.rest, ')')
            && var more := Redirs([], inner.rest[1..]);
               more.Redirected? && ParseBlock(ts) == Ok(Wrap(inner.cmd, more.rs), more.rest)
  {
  }

  /** ts is x, a symbol, y and r. */
  lemma ThreeParts<W>(ts: seq<Tok<W>>, x: seq<Tok<W>>, after: seq<Tok<W>>, c: char, y: seq<Tok<W>>, r: seq<Tok<W>>)
    requires ts == x + after && Starts(after, c) && after[1..] == y + r
    ensures ts == x + [Sym(c)] + y + r
  {
    FirstOne(after, y, r);
  }

  lemma BlockJoined<W>(ts: seq<Tok<W>>, y: seq<Tok<W>>, after: seq<Tok<W>>, z: seq<Tok<W>>, r: seq<Tok<W>>)
    requires Starts(ts, '(') && ts[1..] == y + after && Starts(after, ')') && after[1..] == z + r
    ensures ts == [Sym('(')] + y + [Sym(')')] + z + r
  {
    FirstOne(ts, y, after);
    ThreeParts(ts, [Sym('(')] + y, after, ')', z, r);
  }

  lemma {:induction false} BlockSound<W(!new)>(ts: seq<Tok<W>>) returns (x: seq<Tok<W>>)
    requires Starts(ts, '(') && ParseBlock(ts).Ok?
    ensures ts == x + ParseBlock(ts).rest && ExecD(x, ParseBlock(ts).cmd)
    decreases |ts|, 0
  {
    BlockParts(ts);
    var inner := ParseLine(ts[1..]);
    var y := LineSound(ts[1..]);
    var z, rs := RedirsSound([], inner.rest[1..]);
    BlockJoined(ts, y, inner.rest, z, ParseBlock(ts).rest);
    x := [Sym('(')] + y + [Sym(')')] + z;
    BlockBuilt(y, inner.cmd, z, rs);
  }

  lemma {:induction false} ExecSound<W(!new)>(ts: seq<Tok<W>>) returns (x: seq<Tok<W>>)
    requires ParseExec(ts).Ok?
    ensures ts == x + ParseExec(ts).rest && ExecD(x, ParseExec(ts).cmd)
    decreases |ts|, 1
  {
    if Starts(ts, '(') {
      x := BlockSound(ts);
    } else {
      var args, rs;
      x, args, rs := SimpleSound([], [], ts);
      assert [] + args == args && [] + rs == rs;
      assert SimpleD(x, args, rs, ParseExec(ts).cmd);
    }
  }

  lemma {:induction false} PipeSound<W(!new)>(ts: seq<Tok<W>>) returns (x: seq<Tok<W>>)
    requires ParsePipe(ts).Ok?
    ensures ts == x + ParsePipe(ts).rest && PipeD(x, ParsePipe(ts).cmd)
    decreases |ts|, 2
  {
    var left := ParseExec(ts);
    x := ExecSound(ts);
    if Starts(left.rest, '|') {
      var y := PipeSound(left.rest[1..]);
      ThreeParts(ts, x, left.rest, '|', y, ParsePipe(ts).rest);
      PipeBuilt(x, left.cmd, y, ParsePipe(left.rest[1..]).cmd);
      x := x + [Sym('|')] + y;
    }
  }

  lemma {:induction false} LineSound<W(!new)>(ts: seq<Tok<W>>) returns (x: seq<Tok<W>>)
    requires ParseLine(ts).Ok?
    ensures ts == x + ParseLine(ts).rest && LineD(x, ParseLine(ts).cmd)
    decreases |ts|, 3
  {
    var first := ParsePipe(ts);
    var y := PipeSound(ts);
    var n := AmpsSound(first.cmd, first.rest);
    var line := Amps(first.cmd, first.rest);
    x := y + Ampersands(n);
    assert ts == x + line.rest;
    if Starts(line.rest, ';') {
      var z := LineSound(line.rest[1..]);
      ThreeParts(ts, x, line.rest, ';', z, ParseLine(ts).rest);
      LineBuilt(y, first.cmd, n, z, ParseLine(line.rest[1..]).cmd);
      x := x + [Sym(';')] + z;
    } else {
      LineEndBuilt(y, first.cmd, n);
    }
  }

  // ---------------------------------------------------------------- the language

  /** The parser takes a line, to its end, for a command if and only if the line stands for that command. */
  lemma ParsesIff<W(!new)>(ts: seq<Tok<W>>, c: Cmd<W>)
    ensures ParseLine(ts) == Ok(c, []) <==> LineD(ts, c)
  {
    if ParseLine(ts) == Ok(c, []) {
      var x := LineSound(ts);
      assert x + [] == x;
    }
    if LineD(ts, c) {
      LineFound(ts, c, []);
      assert ts + [] == ts;
    }
  }

  /** A line stands for one command at most. */
  lemma Unambiguous<W(!new)>(ts: seq<Tok<W>>, c: Cmd<W>, d: Cmd<W>)
    requires LineD(ts, c) && LineD(ts, d)
    ensures c == d
  {
    ParsesIff(ts, c);
    ParsesIff(ts, d);
  }
}
