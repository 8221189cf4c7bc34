/** The indenter of tools/schema/matter_grammar.js: INDENT and DEDENT tokens from the widths of new lines. */
module Indenters {
  import opened Bytes

  datatype Token = Token(typ: string, value: string)

  datatype Config = Config(newline: string, open: seq<string>, close: seq<string>, tab: nat)

  datatype Kind = Given | Indent | Dedent

  /** A token yielded, and the levels that are open at that moment. */
  datatype Yield = Yield(kind: Kind, token: Token, levels: seq<nat>)

  /** `Missing`: a newline token without a newline; `Dedented`: a width that no open level has. */
  datatype Outcome = Running | Missing | Dedented | Completed

  datatype Run = Run(levels: seq<nat>, paren: int, out: seq<Yield>, outcome: Outcome)

  const FRESH := Run([0], 0, [], Running)

  // ----- the width of a line

  /** `rsplit(value, "\n", 1)[1]` */
  function AfterLastNewline(s: string): Option<string> {
    if s == [] then None
    else match AfterLastNewline(s[1..])
         case Some(t) => Some(t)
         case None => if s[0] == '\n' then Some(s[1..]) else None
  }

  function WidthOf(s: string, tab: nat): nat {
    if s == [] then 0
    else (if s[0] == ' ' then 1 else if s[0] == '\t' then tab else 0) + WidthOf(s[1..], tab)
  }

  /** A space counts one, a tab as configured, and nothing else anything. */
  lemma {:induction false} WidthIsSum(s: string, tab: nat)
    ensures WidthOf(s, tab) == multiset(s)[' '] + tab * multiset(s)['\t']
  {
    if s != [] {
      WidthIsSum(s[1..], tab);
      assert s == [s[0]] + s[1..];
      Distribute(tab, multiset(s[1..])['\t']);
    }
  }

  lemma Distribute(a: nat, b: nat)
    ensures a * (b + 1) == a * b + a
  {
  }

  /** What follows the last newline, if there is one. */
  lemma {:induction false} LineIsLast(v: string, t: string)
    ensures AfterLastNewline(v) == Some(t)
            <==> '\n' !in t && exists k :: 0 <= k < |v| && v[k] == '\n' && v[k + 1..] == t
    ensures AfterLastNewline(v) == None <==> '\n' !in v
  {
    if v != [] {
      LineIsLast(v[1..], t);
      if AfterLastNewline(v[1..]) == Some(t) {
        var k :| 0 <= k < |v[1..]| && v[1..][k] == '\n' && v[1..][k + 1..] == t;
        assert v[k + 1] == '\n' && v[k + 2..] == t;
      }
      if k :| 0 <= k < |v| && v[k] == '\n' && v[k + 1..] == t {
        if k > 0 {
          assert v[1..][k - 1] == '\n' && v[1..][k..] == t;
        } else {
          assert v[1..] == t;
        }
      }
      assert '\n' in v <==> v[0] == '\n' || '\n' in v[1..];
    }
  }

  // ----- one newline token

  function Last(levels: seq<nat>): int {
    if levels == [] then -1 else levels[|levels| - 1]
  }

  /** The levels left when those beyond the width are closed. */
  function Popped(levels: seq<nat>, width: nat): seq<nat> {
    if width < Last(levels) then Popped(levels[..|levels| - 1], width) else levels
  }

  function Closing(levels: seq<nat>, width: nat, t: Token): seq<Yield> {
    if width < Last(levels) then
      var rest := levels[..|levels| - 1];
      [Yield(Dedent, t, rest)] + Closing(rest, width, t)
    else []
  }

  function Pass(r: Run, t: Token): Run {
    r.(out := r.out + [Yield(Given, t, r.levels)])
  }

  function OnNewline(r: Run, t: Token, tab: nat): Run {
    if r.paren > 0 then r
    else
      var q := Pass(r, t);
      match AfterLastNewline(t.value)
      case None => q.(outcome := Missing)
      case Some(line) =>
        var width, mark := WidthOf(line, tab), t.(value := line);
        if width > Last(q.levels) then
          var more := q.levels + [width];
          q.(levels := more, out := q.out + [Yield(Indent, mark, more)])
        else
          var rest := Popped(q.levels, width);
          Run(rest, q.paren, q.out + Closing(q.levels, width, mark), if width == Last(rest) then Running else Dedented)
  }

  function OnToken(cfg: Config, r: Run, t: Token): Run {
    if r.outcome != Running then r
    else
      var q := if t.typ == cfg.newline then OnNewline(r, t, cfg.tab) else Pass(r, t);
      if q.outcome != Running then q
      else if t.typ in cfg.open then q.(paren := q.paren + 1)
      else if t.typ in cfg.close then q.(paren := q.paren - 1)
      else q
  }

  function Process(cfg: Config, stream: seq<Token>): Run {
    if stream == [] then FRESH else OnToken(cfg, Process(cfg, stream[..|stream| - 1]), stream[|stream| - 1])
  }

  /** At the end of the stream every level but the outermost is closed. */
  function CloseAll(levels: seq<nat>): seq<Yield> {
    if |levels| <= 1 then []
    else
      var rest := levels[..|levels| - 1];
      [Yield(Dedent, Token("", ""), rest)] + CloseAll(rest)
  }

  function Finish(r: Run): Run {
    if r.outcome != Running then r
    else Run(if r.levels == [] then [] else r.levels[..1], r.paren, r.out + CloseAll(r.levels), Completed)
  }

  // ----- the levels open, from the widths alone

  predicate Ascending(levels: seq<nat>) {
    |levels| > 0 && levels[0] == 0 && forall i, j :: 0 <= i < j < |levels| ==> levels[i] < levels[j]
  }

  /** What a newline does to the levels: those above its width are closed, and its width is open afterwards. */
  lemma {:induction false} PoppedLevels(levels: seq<nat>, width: nat)
    requires Ascending(levels)
    ensures var rest := Popped(levels, width);
            && Ascending(rest) && Last(rest) <= width
            && (forall l :: l in rest <==> l in levels && l <= width)
            && (Last(rest) == width <==> width in levels)
  {
    if width < Last(levels) {
      var rest, last := levels[..|levels| - 1], levels[|levels| - 1];
      assert levels == rest + [last];
      PoppedLevels(rest, width);
    } else {
      assert forall l :: l in levels ==> l <= Last(levels);
      assert Last(levels) in levels;
    }
  }

  /** The widths of the newlines taken so far. */
  function Widths(cfg: Config, stream: seq<Token>): seq<nat> {
    if stream == [] then []
    else
      var before, t := stream[..|stream| - 1], stream[|stream| - 1];
      var r := Process(cfg, before);
      Widths(cfg, before)
      + if r.outcome == Running && t.typ == cfg.newline && r.paren <= 0 && AfterLastNewline(t.value).Some?
        then [WidthOf(AfterLastNewline(t.value).value, cfg.tab)] else []
  }

  /** A width is open if no later line was narrower. */
  predicate Open(widths: seq<nat>, l: nat) {
    l == 0 || exists i :: 0 <= i < |widths| && widths[i] == l && forall j :: i < j < |widths| ==> l <= widths[j]
  }

  lemma OpenSnoc(widths: seq<nat>, w: nat, l: nat)
    ensures Open(widths + [w], l) <==> l == 0 || l == w || (l <= w && Open(widths, l))
  {
    var all := widths + [w];
    if l != 0 && l <= w && Open(widths, l) {
      var i :| 0 <= i < |widths| && widths[i] == l && forall j :: i < j < |widths| ==> l <= widths[j];
      assert all[i] == l;
    }
    if l == w {
      assert all[|widths|] == l;
    }
    if l != 0 && l != w && Open(all, l) {
      var i :| 0 <= i < |all| && all[i] == l && forall j :: i < j < |all| ==> l <= all[j];
      assert forall j :: i < j < |widths| ==> all[j] == widths[j];
      assert all[|widths|] == w;
      assert widths[i] == l;
    }
  }

  /** The levels are the open widths, in ascending order from 0. */
  ghost predicate LevelsAreOpen(r: Run, widths: seq<nat>) {
    Ascending(r.levels) && (r.outcome == Running ==> forall l :: l in r.levels <==> Open(widths, l))
  }

  lemma NewlineLevels(r: Run, t: Token, tab: nat, widths: seq<nat>)
    requires LevelsAreOpen(r, widths) && r.outcome == Running && r.paren <= 0 && AfterLastNewline(t.value).Some?
    ensures var w := WidthOf(AfterLastNewline(t.value).value, tab);
            LevelsAreOpen(OnNewline(r, t, tab), widths + [w])
    ensures var w := WidthOf(AfterLastNewline(t.value).value, tab);
            OnNewline(r, t, tab).outcome == Running <==> w > Last(r.levels) || Open(widths, w)
  {
    hide WidthOf;
    hide AfterLastNewline;
    hide Open;
    var w := WidthOf(AfterLastNewline(t.value).value, tab);
    PoppedLevels(r.levels, w);
    forall l: nat
      ensures Open(widths + [w], l) <==> l == 0 || l == w || (l <= w && Open(widths, l))
    {
      OpenSnoc(widths, w, l);
    }
    assert forall l :: l in r.levels ==> l <= Last(r.levels);
    assert forall l :: l in r.levels + [w] <==> l in r.levels || l == w;
  }

  lemma {:induction false} RunLevels(cfg: Config, stream: seq<Token>)
    ensures LevelsAreOpen(Process(cfg, stream), Widths(cfg, stream))
  {
    hide Open;
    hide Widths;
    hide WidthOf;
    if stream == [] {
      RunLevelsOfNothing(cfg);
    } else {
      var before, t := stream[..|stream| - 1], stream[|stream| - 1];
      RunLevels(cfg, before);
      RunLevelsStep(cfg, before, t);
      assert before + [t] == stream;
    }
  }

  lemma RunLevelsOfNothing(cfg: Config)
    ensures LevelsAreOpen(Process(cfg, []), Widths(cfg, []))
  {
  }

  lemma RunLevelsStep(cfg: Config, before: seq<Token>, t: Token)
    requires LevelsAreOpen(Process(cfg, before), Widths(cfg, before))
    ensures LevelsAreOpen(Process(cfg, before + [t]), Widths(cfg, before + [t]))
  {
    hide Open;
    hide WidthOf;
    hide AfterLastNewline;
    var r, widths, all := Process(cfg, before), Widths(cfg, before), before + [t];
    assert all[..|before|] == before && all[|all| - 1] == t;
    assert Process(cfg, all) == OnToken(cfg, r, t);
    if r.outcome == Running && t.typ == cfg.newline && r.paren <= 0 && AfterLastNewline(t.value).Some? {
      var w := WidthOf(AfterLastNewline(t.value).value, cfg.tab);
      assert Widths(cfg, all) == widths + [w];
      NewlineLevels(r, t, cfg.tab, widths);
    } else {
      assert Widths(cfg, all) == widths;
    }
  }

  // ----- balance

  function Count(out: seq<Yield>, kind: Kind): nat {
    if out == [] then 0 else Count(out[..|out| - 1], kind) + if out[|out| - 1].kind == kind then 1 else 0
  }

  lemma {:induction false} CountCat(a: seq<Yield>, b: seq<Yield>, kind: Kind)
    ensures Count(a + b, kind) == Count(a, kind) + Count(b, kind)
  {
    if b == [] {
      assert a + b == a;
    } else {
      assert (a + b)[..|a + b| - 1] == a + b[..|b| - 1];
      CountCat(a, b[..|b| - 1], kind);
    }
  }

  /** INDENTs less DEDENTs among the first tokens. */
  function Depth(out: seq<Yield>): int {
    Count(out, Indent) - Count(out, Dedent)
  }

  /** At every yield, and now, as many levels beyond the first are open as INDENTs exceed DEDENTs. */
  predicate Balanced(out: seq<Yield>, levels: seq<nat>) {
    Depth(out) == |levels| - 1
    && forall k :: 0 <= k < |out| ==> Ascending(out[k].levels) && Depth(out[..k + 1]) == |out[k].levels| - 1
  }

  lemma BalancedSnoc(out: seq<Yield>, levels: seq<nat>, y: Yield)
    requires Balanced(out, levels) && Ascending(y.levels)
    requires |y.levels| == |levels| + match y.kind case Given => 0 case Indent => 1 case Dedent => -1
    ensures Balanced(out + [y], y.levels)
  {
    hide Ascending;
    var all := out + [y];
    assert all[..|out|] == out && all[..|all|] == all;
    forall k | 0 <= k < |all|
      ensures Ascending(all[k].levels) && Depth(all[..k + 1]) == |all[k].levels| - 1
    {
      if k < |out| {
        assert all[..k + 1] == out[..k + 1];
      }
    }
  }

  lemma {:induction false} BalancedClosing(out: seq<Yield>, levels: seq<nat>, width: nat, t: Token)
    requires Balanced(out, levels) && Ascending(levels)
    ensures Balanced(out + Closing(levels, width, t), Popped(levels, width))
    decreases |levels|
  {
    hide Balanced;
    if width < Last(levels) {
      var rest := levels[..|levels| - 1];
      var y := Yield(Dedent, t, rest);
      BalancedSnoc(out, levels, y);
      BalancedClosing(out + [y], rest, width, t);
      assert out + ([y] + Closing(rest, width, t)) == out + [y] + Closing(rest, width, t);
    } else {
      assert out + [] == out;
    }
  }

  lemma {:induction false} BalancedCloseAll(out: seq<Yield>, levels: seq<nat>)
    requires Balanced(out, levels) && Ascending(levels)
    ensures Balanced(out + CloseAll(levels), levels[..1])
    decreases |levels|
  {
    hide Balanced;
    if |levels| > 1 {
      var rest := levels[..|levels| - 1];
      var y := Yield(Dedent, Token("", ""), rest);
      BalancedSnoc(out, levels, y);
      BalancedCloseAll(out + [y], rest);
      assert out + ([y] + CloseAll(rest)) == out + [y] + CloseAll(rest);
      assert rest[..1] == levels[..1];
    } else {
      assert out + [] == out && levels[..1] == levels;
    }
  }

  lemma BalancedToken(cfg: Config, r: Run, t: Token)
    requires Ascending(r.levels) && Balanced(r.out, r.levels)
    ensures Balanced(OnToken(cfg, r, t).out, OnToken(cfg, r, t).levels)
  {
    hide AfterLastNewline;
    hide WidthOf;
    hide Balanced;
    BalancedSnoc(r.out, r.levels, Yield(Given, t, r.levels));
    if AfterLastNewline(t.value).Some? {
      var line := AfterLastNewline(t.value).value;
      var width, q := WidthOf(line, cfg.tab), Pass(r, t);
      var more := r.levels + [width];
      if width > Last(r.levels) {
        assert Ascending(more) by { assert forall l :: l in r.levels ==> l <= Last(r.levels); }
        BalancedSnoc(q.out, r.levels, Yield(Indent, t.(value := line), more));
      }
      BalancedClosing(q.out, r.levels, width, t.(value := line));
    }
  }

  lemma {:induction false} RunBalanced(cfg: Config, stream: seq<Token>)
    ensures Balanced(Process(cfg, stream).out, Process(cfg, stream).levels)
  {
    if stream != [] {
      RunBalanced(cfg, stream[..|stream| - 1]);
      RunLevels(cfg, stream[..|stream| - 1]);
      BalancedToken(cfg, Process(cfg, stream[..|stream| - 1]), stream[|stream| - 1]);
    }
  }

  /** For every token stream: at every token yielded the levels ascend strictly from 0 and their number less one is
      INDENTs less DEDENTs so far, also in a run that fails; a completed run yields as many of each. */
  lemma IndentsBalance(cfg: Config, stream: seq<Token>, k: nat)
    requires k < |Finish(Process(cfg, stream)).out|
    ensures var r := Finish(Process(cfg, stream));
            && Ascending(r.out[k].levels) && Depth(r.out[..k + 1]) == |r.out[k].levels| - 1
            && (r.outcome == Completed ==> Count(r.out, Indent) == Count(r.out, Dedent))
  {
    var r := Process(cfg, stream);
    RunBalanced(cfg, stream);
    RunLevels(cfg, stream);
    BalancedCloseAll(r.out, r.levels);
  }

  /** The open levels are the widths no later line undercut, and the next line outside parentheses is accepted exactly
      when it is wider than all of them or as wide as one. */
  lemma DedentMustMeetOpenWidth(cfg: Config, stream: seq<Token>, t: Token)
    requires var r := Process(cfg, stream); r.outcome == Running && r.paren <= 0
    requires t.typ == cfg.newline && AfterLastNewline(t.value).Some?
    ensures var w, widths := WidthOf(AfterLastNewline(t.value).value, cfg.tab), Widths(cfg, stream);
            var next := Process(cfg, stream + [t]);
            && (next.outcome == Running <==> Open(widths, w) || forall l: nat :: Open(widths, l) ==> l < w)
            && (next.outcome == Running ==>
                  forall l: nat :: l in next.levels <==> l == 0 || l == w || (l < w && Open(widths, l)))
  {
    hide Open;
    hide WidthOf;
    hide AfterLastNewline;
    hide Widths;
    var r, widths := Process(cfg, stream), Widths(cfg, stream);
    var w := WidthOf(AfterLastNewline(t.value).value, cfg.tab);
    assert (stream + [t])[..|stream|] == stream;
    RunLevels(cfg, stream);
    NewlineLevels(r, t, cfg.tab, widths);
    assert Last(r.levels) in r.levels;
    assert forall l :: l in r.levels ==> l <= Last(r.levels);
    var q := OnNewline(r, t, cfg.tab);
    var next := Process(cfg, stream + [t]);
    assert next == OnToken(cfg, r, t) && next.levels == q.levels && next.outcome == q.outcome;
    forall l: nat
      ensures Open(widths + [w], l) <==> l == 0 || l == w || (l <= w && Open(widths, l))
    {
      OpenSnoc(widths, w, l);
    }
  }

  // ----- parentheses, and what is yielded

  /** How many tokens are of the first types and of none of the others. */
  function Tally(stream: seq<Token>, types: seq<string>, but: seq<string>): nat {
    if stream == [] then 0
    else
      var t := stream[|stream| - 1];
      Tally(stream[..|stream| - 1], types, but) + if t.typ in types && t.typ !in but then 1 else 0
  }

  /** As long as nothing fails, the level of parentheses is the opening less the closing tokens so far, which may be
      negative. */
  lemma {:induction false} ParensCount(cfg: Config, stream: seq<Token>)
    requires Process(cfg, stream).outcome == Running
    ensures Process(cfg, stream).paren == Tally(stream, cfg.open, []) - Tally(stream, cfg.close, cfg.open)
  {
    hide AfterLastNewline;
    hide WidthOf;
    hide Popped;
    hide Closing;
    if stream != [] {
      ParensCount(cfg, stream[..|stream| - 1]);
    }
  }

  /** The tokens that are handed on. */
  function Handed(out: seq<Yield>): seq<Token> {
    if out == [] then []
    else
      var y := out[|out| - 1];
      Handed(out[..|out| - 1]) + if y.kind == Given then [y.token] else []
  }

  /** The tokens but the newlines within parentheses. */
  function Visible(cfg: Config, stream: seq<Token>): seq<Token> {
    if stream == [] then []
    else
      var before, t := stream[..|stream| - 1], stream[|stream| - 1];
      Visible(cfg, before)
      + if t.typ == cfg.newline && Tally(before, cfg.open, []) > Tally(before, cfg.close, cfg.open) then [] else [t]
  }

  lemma HandedSnoc(out: seq<Yield>, y: Yield)
    ensures Handed(out + [y]) == Handed(out) + if y.kind == Given then [y.token] else []
  {
    assert (out + [y])[..|out|] == out;
  }

  lemma {:induction false} ClosingHandsNothing(out: seq<Yield>, levels: seq<nat>, width: nat, t: Token)
    ensures Handed(out + Closing(levels, width, t)) == Handed(out)
    decreases |levels|
  {
    if width < Last(levels) {
      var rest := levels[..|levels| - 1];
      var y := Yield(Dedent, t, rest);
      HandedSnoc(out, y);
      ClosingHandsNothing(out + [y], rest, width, t);
      assert out + ([y] + Closing(rest, width, t)) == out + [y] + Closing(rest, width, t);
    } else {
      assert out + [] == out;
    }
  }

  lemma TokenHanded(cfg: Config, r: Run, t: Token)
    requires r.outcome == Running
    ensures Handed(OnToken(cfg, r, t).out)
            == Handed(r.out) + if t.typ == cfg.newline && r.paren > 0 then [] else [t]
  {
    hide AfterLastNewline;
    hide WidthOf;
    hide Handed;
    HandedSnoc(r.out, Yield(Given, t, r.levels));
    if AfterLastNewline(t.value).Some? {
      var line, q := AfterLastNewline(t.value).value, Pass(r, t);
      var more := r.levels + [WidthOf(line, cfg.tab)];
      HandedSnoc(q.out, Yield(Indent, t.(value := line), more));
      ClosingHandsNothing(q.out, r.levels, WidthOf(line, cfg.tab), t.(value := line));
    }
  }

  /** No token is lost, reordered or made up: as long as nothing fails, those handed on are the stream's, but for the
      newlines within parentheses. */
  lemma {:induction false} StreamIsHandedOn(cfg: Config, stream: seq<Token>)
    requires Process(cfg, stream).outcome == Running
    ensures Handed(Process(cfg, stream).out) == Visible(cfg, stream)
  {
    hide OnNewline;
    hide Pass;
    if stream != [] {
      var before := stream[..|stream| - 1];
      assert Process(cfg, before).outcome == Running;
      StreamIsHandedOn(cfg, before);
      ParensCount(cfg, before);
      TokenHanded(cfg, Process(cfg, before), stream[|stream| - 1]);
    }
  }

  /** The INDENT or DEDENT stands for the line that the newline handed on last begins. */
  predicate Marks(out: seq<Yield>, k: nat, mark: Token) {
    k < |out| && out[k].kind == Given && out[k].token.typ == mark.typ
    && AfterLastNewline(out[k].token.value) == Some(mark.value)
  }

  predicate AllMarked(out: seq<Yield>) {
    forall i :: 0 <= i < |out| && out[i].kind != Given ==>
      exists k :: 0 <= k < i && Marks(out, k, out[i].token) && forall j :: k < j < i ==> out[j].kind != Given
  }

  lemma MarkedSnoc(out: seq<Yield>, y: Yield, k: nat)
    requires AllMarked(out)
    requires y.kind != Given ==> Marks(out, k, y.token) && forall j :: k < j < |out| ==> out[j].kind != Given
    ensures AllMarked(out + [y])
  {
    hide AfterLastNewline;
    var all := out + [y];
    forall i | 0 <= i < |all| && all[i].kind != Given
      ensures exists k :: 0 <= k < i && Marks(all, k, all[i].token) && forall j :: k < j < i ==> all[j].kind != Given
    {
      if i < |out| {
        assert all[i] == out[i];
        var m :| 0 <= m < i && Marks(out, m, out[i].token) && forall j :: m < j < i ==> out[j].kind != Given;
        assert Marks(all, m, all[i].token);
      } else {
        assert Marks(all, k, y.token);
      }
    }
  }

  lemma {:induction false} MarkedClosing(out: seq<Yield>, levels: seq<nat>, width: nat, t: Token, k: nat)
    requires AllMarked(out) && Marks(out, k, t) && forall j :: k < j < |out| ==> out[j].kind != Given
    ensures AllMarked(out + Closing(levels, width, t))
    decreases |levels|
  {
    hide AllMarked;
    hide AfterLastNewline;
    if width < Last(levels) {
      var rest := levels[..|levels| - 1];
      var y := Yield(Dedent, t, rest);
      MarkedSnoc(out, y, k);
      assert Marks(out + [y], k, t);
      MarkedClosing(out + [y], rest, width, t, k);
      assert out + ([y] + Closing(rest, width, t)) == out + [y] + Closing(rest, width, t);
    } else {
      assert out + [] == out;
    }
  }

  lemma TokenMarked(cfg: Config, r: Run, t: Token)
    requires AllMarked(r.out)
    ensures AllMarked(OnToken(cfg, r, t).out)
  {
    hide AllMarked;
    hide AfterLastNewline;
    hide WidthOf;
    MarkedSnoc(r.out, Yield(Given, t, r.levels), 0);
    if AfterLastNewline(t.value).Some? {
      var line, q := AfterLastNewline(t.value).value, Pass(r, t);
      var mark, more := t.(value := line), r.levels + [WidthOf(line, cfg.tab)];
      assert Marks(q.out, |r.out|, mark);
      MarkedSnoc(q.out, Yield(Indent, mark, more), |r.out|);
      MarkedClosing(q.out, r.levels, WidthOf(line, cfg.tab), mark, |r.out|);
    }
  }

  /** Every INDENT and DEDENT but those that close the stream has the text that begins its line. */
  lemma {:induction false} RunMarked(cfg: Config, stream: seq<Token>)
    ensures AllMarked(Process(cfg, stream).out)
  {
    hide OnToken;
    if stream != [] {
      RunMarked(cfg, stream[..|stream| - 1]);
      TokenMarked(cfg, Process(cfg, stream[..|stream| - 1]), stream[|stream| - 1]);
    }
  }

  /** The end of the stream closes every level but the outermost, by DEDENTs without text, and hands nothing else on. */
  lemma {:induction false} CloseAllEmpties(levels: seq<nat>)
    ensures |CloseAll(levels)| == if levels == [] then 0 else |levels| - 1
    ensures forall k :: 0 <= k < |CloseAll(levels)| ==>
              CloseAll(levels)[k].kind == Dedent && CloseAll(levels)[k].token.value == ""
              && CloseAll(levels)[k].levels == levels[..|levels| - 1 - k]
    decreases |levels|
  {
    if |levels| > 1 {
      CloseAllEmpties(levels[..|levels| - 1]);
    }
  }

  lemma FinishCloses(cfg: Config, stream: seq<Token>)
    requires Process(cfg, stream).outcome == Running
    ensures var r, end := Process(cfg, stream), Finish(Process(cfg, stream));
            && end.outcome == Completed && end.levels == [0] && end.paren == r.paren
            && |end.out| == |r.out| + |r.levels| - 1 && end.out[..|r.out|] == r.out
            && forall k :: |r.out| <= k < |end.out| ==> end.out[k].kind == Dedent && end.out[k].token.value == ""
  {
    RunLevels(cfg, stream);
    CloseAllEmpties(Process(cfg, stream).levels);
  }

  // ----- in place

  class Indenter {
    const cfg: Config
    var levels: seq<nat>
    var paren: int
    var out: seq<Yield>

    constructor (cfg: Config)
      ensures levels == [0] && paren == 0 && out == [] && this.cfg == cfg
    {
      this.cfg := cfg;
      levels, paren, out := [0], 0, [];
    }

    function Now(outcome: Outcome): Run
      reads this
    {
      Run(levels, paren, out, outcome)
    }

    method Emit(kind: Kind, t: Token)
      modifies this`out
      ensures out == old(out) + [Yield(kind, t, levels)]
    {
      out := out + [Yield(kind, t, levels)];
    }

    method HandleNewline(t: Token) returns (outcome: Outcome)
      modifies this`levels, this`out
      ensures Now(outcome) == OnNewline(old(Now(Running)), t, cfg.tab)
    {
      if paren > 0 {
        return Running;
      }
      Emit(Given, t);
      var line := AfterLastNewline(t.value);
      if line.None? {
        return Missing;
      }
      var width, mark := WidthOf(line.value, cfg.tab), t.(value := line.value);
      if width > Last(levels) {
        levels := levels + [width];
        Emit(Indent, mark);
        return Running;
      }
      ghost var before := out;
      while width < Last(levels)
        invariant Popped(levels, width) == Popped(old(levels), width)
        invariant out + Closing(levels, width, mark) == before + Closing(old(levels), width, mark)
        decreases |levels|
      {
        ghost var later := Closing(levels[..|levels| - 1], width, mark);
        levels := levels[..|levels| - 1];
        ghost var was := out;
        Emit(Dedent, mark);
        assert was + ([Yield(Dedent, mark, levels)] + later) == out + later;
      }
      return if width == Last(levels) then Running else Dedented;
    }

    method ProcessStream(stream: seq<Token>) returns (outcome: Outcome)
      modifies this
      ensures Now(outcome) == Finish(Process(cfg, stream))
    {
      hide OnNewline;
      levels, paren, out := [0], 0, [];
      outcome := Running;
      var i := 0;
      assert stream[..0] == [];
      while i < |stream|
        invariant 0 <= i <= |stream|
        invariant outcome == Running && Now(Running) == Process(cfg, stream[..i])
      {
        var t := stream[i];
        assert stream[..i + 1][..i] == stream[..i] && stream[..i + 1][i] == t;
        if t.typ == cfg.newline {
          outcome := HandleNewline(t);
        } else {
          Emit(Given, t);
        }
        if outcome != Running {
          FailureStays(cfg, stream, i + 1);
          return;
        }
        if t.typ in cfg.open {
          paren := paren + 1;
        } else if t.typ in cfg.close {
          paren := paren - 1;
        }
        i := i + 1;
      }
      assert stream[..i] == stream;
      Close();
      outcome := Completed;
    }

    method Close()
      modifies this`levels, this`out
      ensures out == old(out + CloseAll(levels))
      ensures levels == if old(levels) == [] then [] else old(levels)[..1]
      ensures paren == old(paren)
    {
      while |levels| > 1
        invariant out + CloseAll(levels) == old(out + CloseAll(levels))
        invariant |levels| <= |old(levels)| && levels == old(levels)[..|levels|]
        invariant old(levels) != [] ==> levels != []
      {
        ghost var later, was := CloseAll(levels[..|levels| - 1]), out;
        levels := levels[..|levels| - 1];
        Emit(Dedent, Token("", ""));
        assert was + ([Yield(Dedent, Token("", ""), levels)] + later) == out + later;
      }
    }
  }

  lemma {:induction false} FailureStays(cfg: Config, stream: seq<Token>, i: nat)
    requires i <= |stream| && Process(cfg, stream[..i]).outcome != Running
    ensures Process(cfg, stream) == Process(cfg, stream[..i])
  {
    if i < |stream| {
      var n := |stream| - 1;
      assert stream[..n][..i] == stream[..i];
      FailureStays(cfg, stream[..n], i);
    } else {
      assert stream[..i] == stream;
    }
  }
}
