/** The lexer of tools/schema/matter_grammar.js over an abstract scanner: tokens, positions, lines and columns. */
module Lexers {
  import opened Bytes

  datatype Match = Match(value: string, typ: string)

  /** `match` at a position; the types ignored and those flagged as possibly holding newlines; and the type that a
      callback gives a token (keywords among names). */
  datatype Conf = Conf(
    scan: (string, nat) -> Option<Match>,
    ignored: set<string>,
    newlines: set<string>,
    retype: (string, string) -> string)

  /** A sticky regular expression matches text at the position it is given. */
  ghost predicate Sticky(conf: Conf) {
    forall text, pos: nat :: conf.scan(text, pos).Some? ==>
      pos + |conf.scan(text, pos).value.value| <= |text|
      && text[pos..pos + |conf.scan(text, pos).value.value|] == conf.scan(text, pos).value.value
  }

  /** No terminal is of zero width. */
  ghost predicate NonEmpty(conf: Conf) {
    forall text, pos: nat :: conf.scan(text, pos).Some? ==> conf.scan(text, pos).value.value != ""
  }

  datatype Counter = Counter(pos: nat, line: nat, column: int, lineStart: nat)

  const START := Counter(0, 1, 1, 0)

  datatype Token = Token(typ: string, value: string, start: nat, line: nat, column: int,
                         endLine: nat, endColumn: int, end: nat)

  // ----- lines and columns

  function CountNewlines(s: string): nat {
    if s == [] then 0 else (if s[|s| - 1] == '\n' then 1 else 0) + CountNewlines(s[..|s| - 1])
  }

  /** `lastIndexOf("\n") + 1`: where the last line of `s` starts. */
  function LineStart(s: string): (k: nat)
    ensures k <= |s|
  {
    if s == [] then 0 else if s[|s| - 1] == '\n' then |s| else LineStart(s[..|s| - 1])
  }

  function Feed(c: Counter, s: string, test: bool): Counter {
    var pos := c.pos + |s|;
    var n := if test then CountNewlines(s) else 0;
    var start := if n > 0 then c.pos + LineStart(s) else c.lineStart;
    Counter(pos, c.line + n, pos - start + 1, start)
  }

  /** The position that the consumed text has: its newlines, and what follows the last of them. */
  function PlaceAfter(text: string): Counter {
    Counter(|text|, 1 + CountNewlines(text), |text| - LineStart(text) + 1, LineStart(text))
  }

  /** Newlines are counted, and the last line starts behind the last of them. */
  lemma {:induction false} NewlinesAreCounted(s: string)
    ensures CountNewlines(s) == multiset(s)['\n']
    ensures LineStart(s) == 0 || s[LineStart(s) - 1] == '\n'
    ensures '\n' !in s[LineStart(s)..]
  {
    if s != [] {
      var n := |s| - 1;
      NewlinesAreCounted(s[..n]);
      assert s == s[..n] + [s[n]];
      if s[n] != '\n' {
        assert s[LineStart(s)..] == s[..n][LineStart(s)..] + [s[n]];
      }
    }
  }

  lemma {:induction false} CountCat(a: string, b: string)
    ensures CountNewlines(a + b) == CountNewlines(a) + CountNewlines(b)
    ensures LineStart(a + b) == if CountNewlines(b) > 0 then |a| + LineStart(b) else LineStart(a)
  {
    if b == [] {
      assert a + b == a;
    } else {
      var n := |b| - 1;
      assert (a + b)[..|a + b| - 1] == a + b[..n];
      CountCat(a, b[..n]);
    }
  }

  /** The counter is right after a match exactly when newlines in it are not overlooked. */
  lemma FeedPlace(text: string, s: string, test: bool)
    ensures Feed(PlaceAfter(text), s, test) == PlaceAfter(text + s) <==> test || CountNewlines(s) == 0
    ensures Feed(PlaceAfter(text), s, test).pos == |text + s|
  {
    CountCat(text, s);
  }

  // ----- runs

  /** One match taken: a token, or none for an ignored type. */
  datatype Taken = Taken(m: Match, token: Option<Token>)

  function TakeMatch(conf: Conf, c: Counter, m: Match): Taken {
    var d := Feed(c, m.value, m.typ in conf.newlines);
    Taken(m, if m.typ in conf.ignored then None
             else Some(Token(conf.retype(m.typ, m.value), m.value, c.pos, c.line, c.column, d.line, d.column, d.pos)))
  }

  datatype Outcome = Running | Unexpected | EndOfFile

  datatype Lexed = Lexed(counter: Counter, taken: seq<Taken>, outcome: Outcome)

  /** One turn of the loop. */
  function Turn(conf: Conf, text: string, l: Lexed): Lexed {
    if l.outcome != Running then l
    else if l.counter.pos >= |text| then l.(outcome := EndOfFile)
    else match conf.scan(text, l.counter.pos)
         case None => l.(outcome := Unexpected)
         case Some(m) =>
           Lexed(Feed(l.counter, m.value, m.typ in conf.newlines), l.taken + [TakeMatch(conf, l.counter, m)], Running)
  }

  function After(conf: Conf, text: string, turns: nat): Lexed {
    if turns == 0 then Lexed(START, [], Running) else Turn(conf, text, After(conf, text, turns - 1))
  }

  /** The text of the matches. */
  function TextOf(taken: seq<Taken>): string {
    if taken == [] then "" else TextOf(taken[..|taken| - 1]) + taken[|taken| - 1].m.value
  }

  function Tokens(taken: seq<Taken>): seq<Token> {
    if taken == [] then []
    else
      var last := taken[|taken| - 1].token;
      Tokens(taken[..|taken| - 1]) + if last.Some? then [last.value] else []
  }

  /** Every match that holds a newline is of a type flagged for it. */
  predicate Flagged(conf: Conf, taken: seq<Taken>) {
    forall i :: 0 <= i < |taken| ==> taken[i].m.typ in conf.newlines || CountNewlines(taken[i].m.value) == 0
  }

  lemma TakenSnoc(conf: Conf, taken: seq<Taken>, t: Taken)
    ensures TextOf(taken + [t]) == TextOf(taken) + t.m.value
    ensures Tokens(taken + [t]) == Tokens(taken) + if t.token.Some? then [t.token.value] else []
    ensures Flagged(conf, taken + [t]) <==>
            Flagged(conf, taken) && (t.m.typ in conf.newlines || CountNewlines(t.m.value) == 0)
  {
    var all := taken + [t];
    assert all[..|taken|] == taken;
    assert all[|taken|] == t;
    assert forall i :: 0 <= i < |taken| ==> all[i] == taken[i];
  }

  /** A match's token covers the match, under the place at which it starts and ends. */
  predicate CoversMatch(t: Taken, before: string, placed: bool) {
    t.token.Some? ==>
      var k, after := t.token.value, before + t.m.value;
      && k.start == |before| && k.end == |after| && k.value == t.m.value
      && (placed ==>
            && k.line == PlaceAfter(before).line && k.column == PlaceAfter(before).column
            && k.endLine == PlaceAfter(after).line && k.endColumn == PlaceAfter(after).column)
  }

  predicate AllCover(conf: Conf, taken: seq<Taken>) {
    forall i :: 0 <= i < |taken| ==> CoversMatch(taken[i], TextOf(taken[..i]), Flagged(conf, taken[..i + 1]))
  }

  /** What has been taken is the text up to the counter, and the counter's place is that of this text exactly
      when no newline went unflagged. */
  predicate Placed(conf: Conf, text: string, l: Lexed) {
    && l.counter.pos <= |text| && TextOf(l.taken) == text[..l.counter.pos]
    && (Flagged(conf, l.taken) ==> l.counter == PlaceAfter(text[..l.counter.pos]))
    && (!Flagged(conf, l.taken) ==> l.counter.line < PlaceAfter(text[..l.counter.pos]).line)
  }

  lemma TakePlaces(conf: Conf, text: string, l: Lexed)
    requires Sticky(conf) && Placed(conf, text, l)
    requires l.outcome == Running && l.counter.pos < |text| && conf.scan(text, l.counter.pos).Some?
    ensures Placed(conf, text, Turn(conf, text, l))
    ensures var m := conf.scan(text, l.counter.pos).value;
            text[..l.counter.pos] + m.value == text[..Turn(conf, text, l).counter.pos]
  {
    var next, m := Turn(conf, text, l), conf.scan(text, l.counter.pos).value;
    var before := text[..l.counter.pos];
    assert before + m.value == text[..next.counter.pos];
    hide Sticky;
    TakenSnoc(conf, l.taken, TakeMatch(conf, l.counter, m));
    FeedPlace(before, m.value, m.typ in conf.newlines);
    CountCat(before, m.value);
    hide TakeMatch;
    hide CountNewlines;
    hide Flagged;
  }

  lemma TakeCovers(conf: Conf, text: string, l: Lexed, m: Match)
    requires Placed(conf, text, l)
    ensures var t := TakeMatch(conf, l.counter, m);
            CoversMatch(t, TextOf(l.taken), Flagged(conf, l.taken + [t]))
  {
    var t, before, test := TakeMatch(conf, l.counter, m), text[..l.counter.pos], m.typ in conf.newlines;
    TakenSnoc(conf, l.taken, t);
    FeedPlace(before, m.value, test);
    hide PlaceAfter;
    hide CountNewlines;
    hide Flagged;
  }

  lemma CoverSnoc(conf: Conf, taken: seq<Taken>, t: Taken)
    requires AllCover(conf, taken) && CoversMatch(t, TextOf(taken), Flagged(conf, taken + [t]))
    ensures AllCover(conf, taken + [t])
  {
    hide CoversMatch;
    hide TextOf;
    hide Flagged;
    var all := taken + [t];
    forall i | 0 <= i < |all|
      ensures CoversMatch(all[i], TextOf(all[..i]), Flagged(conf, all[..i + 1]))
    {
      assert all[..i] == taken[..i];
      assert i < |taken| ==> all[..i + 1] == taken[..i + 1];
      assert i == |taken| ==> all[..i + 1] == all && taken[..i] == taken;
    }
  }

  lemma {:induction false} RunTiles(conf: Conf, text: string, turns: nat)
    requires Sticky(conf)
    ensures Placed(conf, text, After(conf, text, turns)) && AllCover(conf, After(conf, text, turns).taken)
  {
    hide Sticky;
    hide Flagged;
    if turns == 0 {
      Nothing(conf, text);
    } else {
      RunTiles(conf, text, turns - 1);
      var l := After(conf, text, turns - 1);
      if Turn(conf, text, l).taken != l.taken {
        var m := conf.scan(text, l.counter.pos).value;
        TakePlaces(conf, text, l);
        TakeCovers(conf, text, l, m);
        CoverSnoc(conf, l.taken, TakeMatch(conf, l.counter, m));
      }
    }
  }

  lemma Nothing(conf: Conf, text: string)
    ensures Placed(conf, text, Lexed(START, [], Running))
  {
    assert text[..0] == "";
  }

  /** After any number of turns on any text: the matches, tokens and ignored ones, tile what was consumed without gap or
      overlap; every token's value is the text between its start and its end; and the line and column of the
      counter, and of the start and end of every token, are those of the text up to there as long as no newline went
      unflagged.  Once one has, the line falls behind for good. */
  lemma LexingTiles(conf: Conf, text: string, turns: nat)
    requires Sticky(conf)
    ensures var l := After(conf, text, turns);
            && l.counter.pos <= |text| && TextOf(l.taken) == text[..l.counter.pos]
            && (l.counter == PlaceAfter(text[..l.counter.pos]) <==> Flagged(conf, l.taken))
            && (l.counter.line == 1 + CountNewlines(text[..l.counter.pos]) <==> Flagged(conf, l.taken))
            && forall i :: 0 <= i < |l.taken| && l.taken[i].token.Some? ==>
                 TokenFits(text, l.taken[i].token.value, TextOf(l.taken[..i]), Flagged(conf, l.taken[..i + 1]))
  {
    hide Sticky;
    hide Flagged;
    RunTiles(conf, text, turns);
    var l := After(conf, text, turns);
    hide After;
    forall i | 0 <= i < |l.taken| && l.taken[i].token.Some?
      ensures TokenFits(text, l.taken[i].token.value, TextOf(l.taken[..i]), Flagged(conf, l.taken[..i + 1]))
    {
      TakenFits(conf, text, l, i);
    }
  }

  lemma TakenFits(conf: Conf, text: string, l: Lexed, i: nat)
    requires Placed(conf, text, l) && AllCover(conf, l.taken) && i < |l.taken| && l.taken[i].token.Some?
    ensures TokenFits(text, l.taken[i].token.value, TextOf(l.taken[..i]), Flagged(conf, l.taken[..i + 1]))
  {
    hide Flagged;
    hide CountNewlines;
    hide LineStart;
    TextPrefix(l.taken, i);
    TextPrefix(l.taken, i + 1);
    assert l.taken[..i + 1][..i] == l.taken[..i];
    Between(text, l.counter.pos, TextOf(l.taken[..i]), l.taken[i].m.value);
  }

  /** The token lies in the text after `before`, which is the text up to its start. */
  predicate TokenFits(text: string, k: Token, before: string, placed: bool) {
    && k.start <= k.end <= |text|
    && before == text[..k.start] && k.value == text[k.start..k.end]
    && (placed ==>
          && k.line == 1 + CountNewlines(text[..k.start]) && k.column == k.start - LineStart(text[..k.start]) + 1
          && k.endLine == 1 + CountNewlines(text[..k.end]) && k.endColumn == k.end - LineStart(text[..k.end]) + 1)
  }

  lemma {:induction false} TextPrefix(taken: seq<Taken>, i: nat)
    requires i <= |taken|
    ensures TextOf(taken[..i]) <= TextOf(taken)
  {
    if i < |taken| {
      var n := |taken| - 1;
      assert taken[..n][..i] == taken[..i];
      TextPrefix(taken[..n], i);
    } else {
      assert taken[..i] == taken;
    }
  }

  lemma Between(text: string, pos: nat, before: string, value: string)
    requires pos <= |text| && before + value <= text[..pos]
    ensures before == text[..|before|] && before + value == text[..|before + value|]
    ensures |before + value| <= |text| && text[|before|..|before + value|] == value
  {
    var all := before + value;
    assert text[..pos][..|all|] == all;
    assert text[..|all|] == all;
    assert all[..|before|] == before;
    assert text[..|before|] == text[..|all|][..|before|];
    assert text[|before|..|all|] == all[|before|..];
  }

  // ----- termination

  /** At this turn the scanner matches nothing at all, in front of text that is left. */
  predicate StuckAt(conf: Conf, text: string, turns: nat) {
    var l := After(conf, text, turns);
    l.outcome == Running && l.counter.pos < |text| && conf.scan(text, l.counter.pos).Some?
    && conf.scan(text, l.counter.pos).value.value == ""
  }

  ghost predicate NeverStuck(conf: Conf, text: string) {
    forall turns: nat :: !StuckAt(conf, text, turns)
  }

  ghost predicate Ends(conf: Conf, text: string) {
    exists turns: nat :: After(conf, text, turns).outcome != Running
  }

  /** A run that is never stuck ends within one turn more than the text is long. */
  lemma {:induction false} LexingEnds(conf: Conf, text: string, turns: nat)
    requires Sticky(conf) && NeverStuck(conf, text)
    ensures After(conf, text, turns).outcome == Running ==> turns <= After(conf, text, turns).counter.pos <= |text|
    ensures turns > |text| ==> After(conf, text, turns).outcome != Running
  {
    if turns > 0 {
      LexingEnds(conf, text, turns - 1);
      RunTiles(conf, text, turns - 1);
      assert !StuckAt(conf, text, turns - 1);
    }
  }

  lemma {:induction false} ColumnFits(conf: Conf, text: string, turns: nat)
    ensures var c := After(conf, text, turns).counter; c.column == c.pos - c.lineStart + 1
  {
    if turns > 0 {
      ColumnFits(conf, text, turns - 1);
    }
  }

  lemma EmptyMatchFeeds(c: Counter, test: bool)
    requires c.column == c.pos - c.lineStart + 1
    ensures Feed(c, "", test) == c
  {
  }

  /** A run that is stuck takes the same empty match at the same place for ever. */
  lemma {:induction false} StuckForEver(conf: Conf, text: string, turns: nat, later: nat)
    requires StuckAt(conf, text, turns) && turns <= later
    ensures StuckAt(conf, text, later)
    ensures var l, m := After(conf, text, turns), After(conf, text, later);
            m.counter == l.counter && |m.taken| == |l.taken| + (later - turns)
  {
    if turns < later {
      StuckForEver(conf, text, turns, later - 1);
      ColumnFits(conf, text, later - 1);
      var l := After(conf, text, later - 1);
      EmptyMatchFeeds(l.counter, conf.scan(text, l.counter.pos).value.typ in conf.newlines);
    }
  }

  /** Lexing ends exactly when no turn is stuck: when the scanner gives no empty match at a place that is reached. */
  lemma LexingEndsIff(conf: Conf, text: string)
    requires Sticky(conf)
    ensures Ends(conf, text) <==> NeverStuck(conf, text)
  {
    if NeverStuck(conf, text) {
      LexingEnds(conf, text, |text| + 1);
    } else {
      var turns: nat :| StuckAt(conf, text, turns);
      forall n: nat
        ensures After(conf, text, n).outcome == Running
      {
        if n < turns {
          if After(conf, text, n).outcome != Running {
            Stays(conf, text, n, turns);
          }
        } else {
          StuckForEver(conf, text, turns, n);
        }
      }
    }
  }

  /** So it ends on every text if no terminal is of zero width: with all of the text matched, or in front of a character
      that no terminal matches. */
  lemma NonEmptyEnds(conf: Conf, text: string)
    requires Sticky(conf) && NonEmpty(conf)
    ensures NeverStuck(conf, text) && Ends(conf, text)
    ensures var l := After(conf, text, |text| + 1);
            l.outcome == Unexpected || (l.outcome == EndOfFile && TextOf(l.taken) == text)
  {
    LexingEndsIff(conf, text);
    LexingEnds(conf, text, |text| + 1);
    if After(conf, text, |text| + 1).outcome == EndOfFile {
      Lossless(conf, text, |text| + 1);
    }
  }

  /** A run that reaches the end of the file has lost nothing. */
  lemma Lossless(conf: Conf, text: string, turns: nat)
    requires Sticky(conf) && After(conf, text, turns).outcome == EndOfFile
    ensures TextOf(After(conf, text, turns).taken) == text
  {
    AtEndOfFile(conf, text, turns);
    RunTiles(conf, text, turns);
    assert text[..|text|] == text;
  }

  lemma {:induction false} AtEndOfFile(conf: Conf, text: string, turns: nat)
    requires After(conf, text, turns).outcome == EndOfFile
    ensures After(conf, text, turns).counter.pos >= |text|
  {
    if turns > 0 && After(conf, text, turns - 1).outcome == EndOfFile {
      AtEndOfFile(conf, text, turns - 1);
    }
  }

  // ----- in place

  class LineCounter {
    var pos: nat
    var line: nat
    var column: int
    var lineStart: nat

    constructor ()
      ensures Now() == START
    {
      pos, line, column, lineStart := 0, 1, 1, 0;
    }

    function Now(): Counter
      reads this
    {
      Counter(pos, line, column, lineStart)
    }

    method FeedText(s: string, test: bool)
      modifies this
      ensures Now() == Feed(old(Now()), s, test)
    {
      if test {
        var n := CountNewlines(s);
        if n > 0 {
          line := line + n;
          lineStart := pos + LineStart(s);
        }
      }
      pos := pos + |s|;
      column := pos - lineStart + 1;
    }
  }

  class BasicLexer {
    const conf: Conf
    const text: string
    const counter: LineCounter
    ghost var turns: nat

    constructor (conf: Conf, text: string)
      ensures Valid() && turns == 0 && fresh(counter) && this.conf == conf && this.text == text
    {
      this.conf, this.text := conf, text;
      counter := new LineCounter();
      turns := 0;
    }

    ghost function Now(): Lexed
      reads this
    {
      After(conf, text, turns)
    }

    ghost predicate Valid()
      reads this, counter
    {
      Now().outcome == Running && counter.Now() == Now().counter
    }

    /** Takes matches up to the next token; `Running` with a token, or the reason why there is none. */
    method NextToken() returns (t: Option<Token>, outcome: Outcome)
      requires Valid() && Sticky(conf) && NeverStuck(conf, text)
      modifies this, counter
      ensures Valid() && turns >= old(turns)
      ensures t.Some? <==> outcome == Running
      ensures t.Some? ==> turns > old(turns) && Tokens(Now().taken) == old(Tokens(Now().taken)) + [t.value]
      ensures t.None? ==>
                Tokens(Now().taken) == old(Tokens(Now().taken))
                && After(conf, text, turns + 1) == Now().(outcome := outcome)
    {
      hide Feed;
      hide Tokens;
      hide Sticky;
      hide NeverStuck;
      hide TakeMatch;
      hide After;
      AfterNext(conf, text, turns);
      while counter.pos < |text|
        invariant Valid() && turns >= old(turns) && Tokens(Now().taken) == old(Tokens(Now().taken))
        invariant After(conf, text, turns + 1) == Turn(conf, text, Now())
        decreases |text| - counter.pos
      {
        var res := conf.scan(text, counter.pos);
        if res.None? {
          return None, Unexpected;
        }
        var m := res.value;
        ghost var taken := TakeMatch(conf, counter.Now(), m);
        TakenSnoc(conf, Now().taken, taken);
        var test, ignored := m.typ in conf.newlines, m.typ in conf.ignored;
        var start, line, column := counter.pos, counter.line, counter.column;
        TokenOfMatch(conf, counter.Now(), m);
        MatchAdvances(conf, text, turns, m);
        counter.FeedText(m.value, test);
        turns := turns + 1;
        AfterNext(conf, text, turns);
        if !ignored {
          t := Some(Token(conf.retype(m.typ, m.value), m.value, start, line, column, counter.line, counter.column,
                          counter.pos));
          return t, Running;
        }
      }
      return None, EndOfFile;
    }

    /** All tokens, up to the end of the text or the first character no terminal matches. */
    method Lex() returns (tokens: seq<Token>, outcome: Outcome)
      requires Valid() && turns == 0 && Sticky(conf) && NeverStuck(conf, text)
      modifies this, counter
      ensures var l := After(conf, text, |text| + 1); tokens == Tokens(l.taken) && outcome == l.outcome != Running
    {
      assert Tokens(Now().taken) == [];
      hide Tokens;
      hide Turn;
      hide After;
      hide Sticky;
      hide NeverStuck;
      tokens, outcome := [], Running;
      while outcome == Running
        invariant Valid() && turns <= |text| && tokens == Tokens(Now().taken)
        invariant outcome != Running ==> After(conf, text, turns + 1) == Now().(outcome := outcome)
        decreases outcome == Running, |text| - turns
      {
        var t;
        t, outcome := NextToken();
        RunningIsShort(conf, text, turns);
        if t.Some? {
          tokens := tokens + [t.value];
        }
      }
      Stays(conf, text, turns + 1, |text| + 1);
    }
  }

  lemma RunningIsShort(conf: Conf, text: string, turns: nat)
    requires Sticky(conf) && NeverStuck(conf, text) && After(conf, text, turns).outcome == Running
    ensures turns <= |text|
  {
    LexingEnds(conf, text, turns);
  }

  lemma MatchAdvances(conf: Conf, text: string, turns: nat, m: Match)
    requires Sticky(conf) && NeverStuck(conf, text)
    requires var l := After(conf, text, turns);
             l.outcome == Running && l.counter.pos < |text| && conf.scan(text, l.counter.pos) == Some(m)
    ensures var c := After(conf, text, turns).counter;
            c.pos < Feed(c, m.value, m.typ in conf.newlines).pos <= |text|
  {
    assert !StuckAt(conf, text, turns);
  }

  lemma AfterNext(conf: Conf, text: string, turns: nat)
    ensures After(conf, text, turns + 1) == Turn(conf, text, After(conf, text, turns))
  {
  }

  lemma TokenOfMatch(conf: Conf, c: Counter, m: Match)
    ensures var d := Feed(c, m.value, m.typ in conf.newlines);
            TakeMatch(conf, c, m) == Taken(m, if m.typ in conf.ignored then None
              else Some(Token(conf.retype(m.typ, m.value), m.value, c.pos, c.line, c.column, d.line, d.column, d.pos)))
  {
    hide Feed;
  }

  /** A run that has ended stays as it is. */
  lemma {:induction false} Stays(conf: Conf, text: string, i: nat, j: nat)
    requires i <= j && After(conf, text, i).outcome != Running
    ensures After(conf, text, j) == After(conf, text, i)
  {
    if i < j {
      Stays(conf, text, i, j - 1);
    }
  }
}
