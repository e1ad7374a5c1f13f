/** Which links the scanner must yield: every inline link that no earlier bracket takes in. */
module LinkCompleteness {
  import opened Options
  import opened LinkScanner
  import opened LinkTargets

  // ---------------------------------------------------------------- what a link is

  /** Only white space lies between the two positions. */
  ghost predicate Blank(content: string, from: nat, to: nat) {
    to <= |content| && forall m :: from <= m < to ==> IsSpace(content[m])
  }

  /** An unescaped `]` at `k`, then white space, then a `(` just before `ts`. */
  ghost predicate Joins(content: string, ls: nat, k: nat, ts: nat) {
    && ls < k && k + 1 < ts <= |content|
    && content[k] == ']' && content[k - 1] != '\\'
    && content[ts - 1] == '(' && Blank(content, k + 1, ts - 1)
  }

  /** The label that opens at `ls` ends at `k`, the first position that joins it to a target, which starts at `ts`. */
  ghost predicate LabelOf(content: string, ls: nat, k: nat, ts: nat) {
    && Joins(content, ls, k, ts) && content[ls] == '['
    && forall j: nat, t: nat :: j < k ==> !Joins(content, ls, j, t)
  }

  ghost predicate NoLabel(content: string, ls: nat) {
    forall k: nat, ts: nat :: !LabelOf(content, ls, k, ts)
  }

  /** The target that starts at `ts` is balanced up to the `)` at `te`. */
  ghost predicate TargetOf(content: string, ts: nat, te: nat) {
    ts <= te < |content| && content[te] == ')' && Balanced(content[ts..te])
  }

  ghost predicate NoTarget(content: string, ts: nat) {
    forall te: nat :: !TargetOf(content, ts, te)
  }

  // ---------------------------------------------------------------- the scanner's functions find it

  lemma {:induction false} SkipSpacesIs(content: string, i: nat, n: nat)
    requires i <= n <= |content| && Blank(content, i, n) && (n < |content| ==> !IsSpace(content[n]))
    ensures SkipSpaces(content, i) == n
    decreases n - i
  {
    if i < n {
      SkipSpacesIs(content, i + 1, n);
    }
  }

  lemma {:induction false} SkippedAreSpaces(content: string, i: nat)
    requires i <= |content|
    ensures Blank(content, i, SkipSpaces(content, i))
    decreases |content| - i
  {
    if i < |content| && IsSpace(content[i]) {
      SkippedAreSpaces(content, i + 1);
    }
  }

  lemma JoinsIff(content: string, ls: nat, k: nat, ts: nat)
    ensures Joins(content, ls, k, ts) <==> ClosesLabel(content, ls, k) && ts == TargetStart(content, k)
  {
    if Joins(content, ls, k, ts) {
      SkipSpacesIs(content, k + 1, ts - 1);
    }
    if ClosesLabel(content, ls, k) && ts == TargetStart(content, k) {
      SkippedAreSpaces(content, k + 1);
    }
  }

  lemma LabelOfIff(content: string, ls: nat, k: nat, ts: nat)
    requires ls < |content| && content[ls] == '['
    ensures LabelOf(content, ls, k, ts)
            <==> LabelEnd(content, ls, ls + 1) == k && k < |content| && ts == TargetStart(content, k)
  {
    hide Joins;
    LabelEndIsFirst(content, ls, ls + 1);
    forall j: nat, t: nat ensures Joins(content, ls, j, t) <==> ClosesLabel(content, ls, j) && t == TargetStart(content, j) {
      JoinsIff(content, ls, j, t);
    }
    var end := LabelEnd(content, ls, ls + 1);
    if end != -1 {
      assert Joins(content, ls, end, TargetStart(content, end));
    }
  }

  lemma TargetOfIff(content: string, ts: nat, te: nat)
    ensures TargetOf(content, ts, te) <==> TargetEnd(content, ts, 0) == te
  {
    if ts <= te < |content| {
      TargetEndsAfterBalanced(content, ts, te);
    }
  }

  // ---------------------------------------------------------------- the rule of the scan

  ghost predicate FirstBracket(content: string, index: nat, ls: nat) {
    index <= ls < |content| && content[ls] == '[' && forall k :: index <= k < ls ==> content[k] != '['
  }

  lemma FirstBracketIff(content: string, index: nat, ls: nat)
    ensures FirstBracket(content, index, ls) <==> Find(content, '[', index) == ls
  {
    FindFirst(content, '[', index);
  }

  /** Without an opening bracket nothing is yielded. */
  lemma NoBracketNoLink(content: string, index: nat)
    requires forall k :: index <= k < |content| ==> content[k] != '['
    ensures LinksFrom(content, index) == []
  {
    FindFirst(content, '[', index);
  }

  /** A first bracket without a label: the scan goes on behind it. */
  lemma NoLabelGoesOn(content: string, index: nat, ls: nat)
    requires FirstBracket(content, index, ls) && NoLabel(content, ls)
    ensures LinksFrom(content, index) == LinksFrom(content, ls + 1)
  {
    hide LabelOf, LabelEnd, TargetStart, TargetEnd, Find;
    FirstBracketIff(content, index, ls);
    var end := LabelEnd(content, ls, ls + 1);
    if end != -1 {
      LabelOfIff(content, ls, end, TargetStart(content, end));
    }
  }

  /** A first bracket whose label leads to no complete target: the scan goes on behind the label. */
  lemma NoTargetGoesOn(content: string, index: nat, ls: nat, k: nat, ts: nat)
    requires FirstBracket(content, index, ls) && LabelOf(content, ls, k, ts) && NoTarget(content, ts)
    ensures LinksFrom(content, index) == LinksFrom(content, k + 1)
  {
    FirstBracketIff(content, index, ls);
    LabelOfIff(content, ls, k, ts);
    hide LabelOf, TargetOf, LabelEnd, TargetStart, TargetEnd, Find;
    var te := TargetEnd(content, ts, 0);
    if te != -1 {
      TargetOfIff(content, ts, te);
    }
  }

  /** A first bracket with a label and a complete target: the link is yielded and the scan goes on behind it. */
  lemma LinkIsYielded(content: string, index: nat, ls: nat, k: nat, ts: nat, te: nat)
    requires FirstBracket(content, index, ls) && LabelOf(content, ls, k, ts) && TargetOf(content, ts, te)
    ensures LinksFrom(content, index) == [LinkAt(content, ls, ts, te)] + LinksFrom(content, te + 1)
  {
    FirstBracketIff(content, index, ls);
    LabelOfIff(content, ls, k, ts);
    TargetOfIff(content, ts, te);
    LabelBounds(content, ls, k, ts);
    hide LabelOf, TargetOf, LabelEnd, TargetStart, TargetEnd, Find, LinkAt, FirstBracket;
  }

  /** A yielded link: it starts at its bracket, or at the exclamation mark just before it; its target is what the
      parentheses enclose; and around the target it is the page's text. */
  lemma YieldedLinkIs(content: string, ls: nat, ts: nat, te: nat)
    requires ls < ts <= te < |content| && content[te] == ')'
    ensures var link := LinkAt(content, ls, ts, te);
            && link.start <= ls && link.end == te + 1 && link.target == content[ts..te] && link.suffix == ")"
            && content[link.start..ls] == (if exists before :: content[..ls] == before + "!" then "!" else "")
            && content[link.start..link.end] == link.prefix + link.target + link.suffix
  {
    var link := LinkAt(content, ls, ts, te);
    if ls > 0 && content[ls - 1] == '!' {
      assert content[..ls] == content[..ls - 1] + "!";
      assert content[ls - 1..ls] == "!";
    } else {
      forall before ensures content[..ls] != before + "!" {
        if content[..ls] == before + "!" {
          assert content[..ls][ls - 1] == '!';
        }
      }
    }
    assert content[link.start..link.end] == content[link.start..ts] + content[ts..te] + content[te..te + 1];
  }

  // ---------------------------------------------------------------- no link is missed

  /** An inline link from the bracket at `ls`. */
  ghost predicate IsLink(content: string, ls: nat, ts: nat, te: nat) {
    TargetOf(content, ts, te) && exists k: nat :: LabelOf(content, ls, k, ts)
  }

  /** A bracket before `ls` whose label reaches over it and leads to no complete target. */
  ghost predicate InOpenLabel(content: string, index: nat, ls: nat) {
    exists b: nat, k: nat, ts: nat ::
      index <= b < ls <= k && LabelOf(content, b, k, ts) && NoTarget(content, ts)
  }

  /** A link yielded from a bracket before `ls` and reaching over it. */
  ghost predicate InLink(content: string, index: nat, ls: nat) {
    exists b: nat, ts: nat, te: nat ::
      index <= b < ls <= te && IsLink(content, b, ts, te) && b < ts <= te < |content|
      && LinkAt(content, b, ts, te) in LinksFrom(content, index)
  }

  lemma LinkBounds(content: string, ls: nat, ts: nat, te: nat)
    requires IsLink(content, ls, ts, te)
    ensures ls < ts <= te < |content| && content[ls] == '['
  {
  }

  /** Where the label that opens at `ls` ends, and where its target does, or -1. */
  function LabelAt(content: string, ls: nat): int {
    LabelEnd(content, ls, ls + 1)
  }

  function TargetAt(content: string, ls: nat): int
    requires 0 <= LabelAt(content, ls) < |content|
  {
    TargetEnd(content, TargetStart(content, LabelAt(content, ls)), 0)
  }

  /** The bracket at `b` takes in what follows up to `ls`. */
  ghost predicate TakesIn(content: string, index: nat, b: nat, ls: nat) {
    && b < ls && b < |content| && content[b] == '[' && 0 <= LabelAt(content, b) < |content|
    && if TargetAt(content, b) == -1 then ls <= LabelAt(content, b)
       else && ls <= TargetAt(content, b)
            && b < TargetStart(content, LabelAt(content, b)) <= TargetAt(content, b) < |content|
            && LinkAt(content, b, TargetStart(content, LabelAt(content, b)), TargetAt(content, b)) in LinksFrom(content, index)
  }

  lemma ScanAt(content: string, b: nat)
    requires b < |content| && content[b] == '['
    ensures LabelAt(content, b) == -1 || b < LabelAt(content, b) < |content|
    ensures LabelAt(content, b) != -1 ==>
              var ts := TargetStart(content, LabelAt(content, b));
              LabelAt(content, b) < ts && (TargetAt(content, b) == -1 || ts <= TargetAt(content, b) < |content|)
  {
    LabelEndIsFirst(content, b, b + 1);
  }

  /** What one round of the scan does with the first bracket. */
  lemma RoundAt(content: string, index: nat, b: nat)
    requires index <= b == Find(content, '[', index)
    ensures var n := if LabelAt(content, b) == -1 then b + 1
                     else if TargetAt(content, b) == -1 then LabelAt(content, b) + 1 else TargetAt(content, b) + 1;
            && index < n <= |content|
            && LinksFrom(content, index)
               == (if LabelAt(content, b) != -1 && TargetAt(content, b) != -1
                   then [LinkAt(content, b, TargetStart(content, LabelAt(content, b)), TargetAt(content, b))] else [])
                  + LinksFrom(content, n)
  {
    FindFirst(content, '[', index);
    ScanAt(content, b);
    hide LabelEnd, TargetEnd, TargetStart, LinkAt, Find;
  }

  lemma {:induction false} LinkOrTakenIn(content: string, index: nat, ls: nat)
    requires index <= ls < |content| && content[ls] == '[' && LabelAt(content, ls) != -1 && TargetAt(content, ls) != -1
    ensures ls < TargetStart(content, LabelAt(content, ls)) <= TargetAt(content, ls) < |content|
    ensures || LinkAt(content, ls, TargetStart(content, LabelAt(content, ls)), TargetAt(content, ls))
               in LinksFrom(content, index)
            || exists b: nat :: index <= b && TakesIn(content, index, b, ls)
    decreases |content| - index
  {
    hide LabelAt, TargetAt, TargetStart, LinkAt, LinksFrom;
    FindFirst(content, '[', index);
    ScanAt(content, ls);
    var b: nat := Find(content, '[', index);
    RoundAt(content, index, b);
    ScanAt(content, b);
    if b != ls {
      var n := if LabelAt(content, b) == -1 then b + 1
               else if TargetAt(content, b) == -1 then LabelAt(content, b) + 1 else TargetAt(content, b) + 1;
      if ls < n {
        assert TakesIn(content, index, b, ls);
      } else {
        LinkOrTakenIn(content, n, ls);
        if c: nat :| n <= c && TakesIn(content, n, c, ls) {
          assert TakesIn(content, index, c, ls);
        }
      }
    }
  }

  lemma TakenInIs(content: string, index: nat, b: nat, ls: nat)
    requires index <= b && TakesIn(content, index, b, ls)
    ensures InLink(content, index, ls) || InOpenLabel(content, index, ls)
  {
    var k: nat := LabelAt(content, b);
    var ts := TargetStart(content, k);
    LabelOfIff(content, b, k, ts);
    assert LabelOf(content, b, k, ts);
    hide LabelOf, LabelAt, TargetStart, LinkAt, LinksFrom;
    if TargetAt(content, b) == -1 {
      forall te: nat ensures !TargetOf(content, ts, te) {
        TargetOfIff(content, ts, te);
      }
      assert NoTarget(content, ts);
    } else {
      TargetOfIff(content, ts, TargetAt(content, b));
      assert IsLink(content, b, ts, TargetAt(content, b));
    }
  }

  /** Every inline link is yielded, unless an earlier bracket takes its own in: with a yielded link that reaches over
      it, or with a label that reaches over it and leads to no complete target. */
  lemma EveryLinkIsYielded(content: string, index: nat, ls: nat, ts: nat, te: nat)
    requires IsLink(content, ls, ts, te) && index <= ls
    ensures ls < ts <= te < |content|
    ensures || LinkAt(content, ls, ts, te) in LinksFrom(content, index)
            || InLink(content, index, ls) || InOpenLabel(content, index, ls)
  {
    LinkBounds(content, ls, ts, te);
    var k: nat :| LabelOf(content, ls, k, ts);
    LabelOfIff(content, ls, k, ts);
    TargetOfIff(content, ts, te);
    hide LabelOf, TargetOf, LinkAt, LinksFrom, LabelEnd, TargetEnd, TargetStart, InLink, InOpenLabel, TakesIn;
    LinkOrTakenIn(content, index, ls);
    if b: nat :| index <= b && TakesIn(content, index, b, ls) {
      TakenInIs(content, index, b, ls);
    }
  }

  lemma LabelBounds(content: string, ls: nat, k: nat, ts: nat)
    requires LabelOf(content, ls, k, ts)
    ensures ls < k < ts - 1 < |content|
  {
  }
}
