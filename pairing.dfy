/** The pairing optimiser of the queue replenisher (App.tsx:224-262) and the
    match signatures kept in the history (App.tsx:320-323). */
module Pairing {
  import opened Types
  import opened Levels
  import opened Matches

  /** A split of the four selected players into team A (a1, a2) and team B (b1, b2). */
  datatype Split = Split(a1: nat, a2: nat, b1: nat, b2: nat)

  /** The three ways to split four players into two pairs, in the order they are tried. */
  const COMBINATIONS: seq<Split> := [Split(0, 1, 2, 3), Split(0, 2, 1, 3), Split(0, 3, 1, 2)]

  /** How many of the latest history entries the repetition test looks at. */
  const HISTORY_WINDOW: nat := 10

  /** The flat penalty for re-forming a recently played pair. */
  const REPEAT_PENALTY: int := 50

  /** The two sorted pair keys of a played match; rendered as "|pairA|vs|pairB|". */
  datatype Signature = Signature(pairA: string, pairB: string)

  /** `s.slice(-n)`: the last n entries, or all of them when there are fewer. */
  function LastN<T>(s: seq<T>, n: nat): (r: seq<T>)
    ensures |r| == if |s| < n then |s| else n
    ensures r == s[|s| - |r|..]
  {
    if |s| <= n then s else s[|s| - n..]
  }

  /** The default (code unit) string order of `Array.prototype.sort`. */
  predicate StrLe(a: string, b: string)
  {
    a == [] || (b != [] && (a[0] < b[0] || (a[0] == b[0] && StrLe(a[1..], b[1..]))))
  }

  lemma {:induction false} StrLeTotal(a: string, b: string)
    ensures StrLe(a, b) || StrLe(b, a)
  {
    if a != [] && b != [] && a[0] == b[0] {
      StrLeTotal(a[1..], b[1..]);
    }
  }

  lemma {:induction false} StrLeAntisymmetric(a: string, b: string)
    requires StrLe(a, b) && StrLe(b, a)
    ensures a == b
  {
    if a != [] && b != [] {
      StrLeAntisymmetric(a[1..], b[1..]);
      assert a == [a[0]] + a[1..] && b == [b[0]] + b[1..];
    }
  }

  /** `[x, y].sort().join('-')`. */
  function PairSig(x: string, y: string): string
  {
    if StrLe(x, y) then x + "-" + y else y + "-" + x
  }

  /** A pair's key does not depend on the order of its two ids. */
  lemma PairSigSymmetric(x: string, y: string)
    ensures PairSig(x, y) == PairSig(y, x)
  {
    StrLeTotal(x, y);
    if StrLe(x, y) && StrLe(y, x) {
      StrLeAntisymmetric(x, y);
    }
  }

  /** The signature assignMatchToCourt records for a match. */
  function MatchSignature(m: Match): Signature
  {
    Signature(PairSig(m.teamA.player1.id, m.teamA.player2.id), PairSig(m.teamB.player1.id, m.teamB.player2.id))
  }

  /** The history string of a signature. */
  function Render(e: Signature): string
  {
    "|" + e.pairA + "|vs|" + e.pairB + "|"
  }

  /** `w` occurs in `h` starting at index `i`. */
  predicate IsAt(h: string, w: string, i: int)
  {
    0 <= i && i + |w| <= |h| && h[i..i + |w|] == w
  }

  /** `h.includes(w)`. */
  predicate Contains(h: string, w: string)
  {
    exists i | 0 <= i <= |h| :: IsAt(h, w, i)
  }

  predicate NoBar(s: string)
  {
    forall k :: 0 <= k < |s| ==> s[k] != '|'
  }

  /** `h.includes('|' + sig + '|')` on a rendered entry is membership of sig among its two pairs. */
  predicate Mentions(e: Signature, sig: string)
  {
    e.pairA == sig || e.pairB == sig
  }

  lemma RenderLayout(e: Signature)
    ensures var h, a, b := Render(e), e.pairA, e.pairB;
            |h| == |a| + |b| + 6 &&
            h[0] == '|' && h[|a| + 1] == '|' && h[|a| + 4] == '|' && h[|a| + |b| + 5] == '|' &&
            h[1..|a| + 1] == a && h[|a| + 2..|a| + 4] == "vs" && h[|a| + 5..|a| + |b| + 5] == b
  {
    var h, a, b := Render(e), e.pairA, e.pairB;
    assert h == ("|" + a) + ("|vs|" + (b + "|"));
  }

  /** A rendered entry holds bars only around its two pairs, given ids without bars. */
  lemma RenderBars(e: Signature)
    requires NoBar(e.pairA) && NoBar(e.pairB)
    ensures var h, a, b := Render(e), e.pairA, e.pairB;
            forall k :: 0 <= k < |h| ==> (h[k] == '|' ==> k == 0 || k == |a| + 1 || k == |a| + 4 || k == |a| + |b| + 5)
  {
    var h, a, b := Render(e), e.pairA, e.pairB;
    RenderLayout(e);
    forall k | 0 <= k < |h|
      ensures h[k] == '|' ==> k == 0 || k == |a| + 1 || k == |a| + 4 || k == |a| + |b| + 5
    {
      if 1 <= k <= |a| {
        assert h[k] == h[1..|a| + 1][k - 1] == a[k - 1];
      } else if |a| + 2 <= k < |a| + 4 {
        assert h[k] == h[|a| + 2..|a| + 4][k - |a| - 2];
      } else if |a| + 5 <= k < |a| + |b| + 5 {
        assert h[k] == h[|a| + 5..|a| + |b| + 5][k - |a| - 5] == b[k - |a| - 5];
      }
    }
  }

  /** An occurrence of "|sig|" spans two bars with no bar between them. */
  lemma OccurrenceBetweenBars(h: string, sig: string, i: int)
    requires NoBar(sig) && IsAt(h, "|" + sig + "|", i)
    ensures i + |sig| + 1 < |h|
    ensures h[i] == '|' && h[i + |sig| + 1] == '|' && h[i + 1..i + |sig| + 1] == sig
    ensures forall k :: i < k < i + |sig| + 1 ==> h[k] != '|'
  {
    var w := "|" + sig + "|";
    var j := i + |sig| + 1;
    assert h[i..i + |w|] == w;
    assert h[i] == h[i..i + |w|][0];
    assert h[j] == h[i..i + |w|][|sig| + 1];
    forall k | 0 <= k < |sig|
      ensures h[i + 1..j][k] == sig[k]
    {
      assert h[i + 1 + k] == h[i..i + |w|][k + 1] == w[k + 1];
    }
    forall k | i < k < j
      ensures h[k] != '|'
    {
      assert h[k] == h[i..i + |w|][k - i] == sig[k - i - 1];
    }
  }

  /** Modelling the substring test by pair equality is exact when ids hold no bar
      (a pair key always holds a '-', so it is never "vs"). */
  lemma IncludesIsMention(e: Signature, sig: string)
    requires NoBar(e.pairA) && NoBar(e.pairB) && NoBar(sig) && sig != "vs"
    ensures Contains(Render(e), "|" + sig + "|") <==> Mentions(e, sig)
  {
    if Mentions(e, sig) {
      MentionIsIncluded(e, sig);
    }
    if Contains(Render(e), "|" + sig + "|") {
      IncludedIsMention(e, sig);
    }
  }

  /** A pair key of the entry occurs, between bars, in its rendering. */
  lemma MentionIsIncluded(e: Signature, sig: string)
    requires Mentions(e, sig)
    ensures Contains(Render(e), "|" + sig + "|")
  {
    var h, a, w := Render(e), e.pairA, "|" + sig + "|";
    RenderLayout(e);
    if e.pairA == sig {
      assert IsAt(h, w, 0) by { assert h[0..|w|] == w; }
    } else {
      assert IsAt(h, w, |a| + 4) by { assert h[|a| + 4..|a| + 4 + |w|] == w; }
    }
  }

  /** An occurrence between bars in the rendering is one of the two pair keys. */
  lemma IncludedIsMention(e: Signature, sig: string)
    requires NoBar(e.pairA) && NoBar(e.pairB) && NoBar(sig) && sig != "vs"
    requires Contains(Render(e), "|" + sig + "|")
    ensures Mentions(e, sig)
  {
    var h, a, b, w := Render(e), e.pairA, e.pairB, "|" + sig + "|";
    RenderLayout(e);
    var i :| 0 <= i <= |h| && IsAt(h, w, i);
    OccurrenceBetweenBars(h, sig, i);
    RenderBars(e);
    var j := i + |sig| + 1;
    assert !(i < |a| + 1 < j) && !(i < |a| + 4 < j) && !(i < |a| + |b| + 5 < j);
    assert (i == 0 && j == |a| + 1) || (i == |a| + 1 && j == |a| + 4) || (i == |a| + 4 && j == |a| + |b| + 5);
  }

  /** `recentHistory.some(h => includes pair1 || includes pair2)`. */
  predicate AnyMentions(recent: seq<Signature>, sig1: string, sig2: string)
  {
    exists k :: 0 <= k < |recent| && (Mentions(recent[k], sig1) || Mentions(recent[k], sig2))
  }

  /** The four selected players' skill scores, `getLevelScore(p.level)`. */
  function Skills(sel: seq<Player>): (r: seq<int>)
    requires |sel| == 4
    ensures |r| == 4
  {
    [LevelScore(sel[0].level), LevelScore(sel[1].level), LevelScore(sel[2].level), LevelScore(sel[3].level)]
  }

  /** The repetition term of a split: 50 when one of its pairs occurs in the last ten entries. */
  function RepetitionPenalty(sel: seq<Player>, history: seq<Signature>, c: Split): (r: int)
    requires c.a1 < |sel| && c.a2 < |sel| && c.b1 < |sel| && c.b2 < |sel|
    ensures r == 0 || r == REPEAT_PENALTY
  {
    var recent := LastN(history, HISTORY_WINDOW);
    if AnyMentions(recent, PairSig(sel[c.a1].id, sel[c.a2].id), PairSig(sel[c.b1].id, sel[c.b2].id))
    then REPEAT_PENALTY else 0
  }

  /** The repetition term is charged exactly when an entry among the latest ten mentions a pair. */
  lemma RepetitionPenaltyWindow(sel: seq<Player>, history: seq<Signature>, c: Split)
    requires c.a1 < |sel| && c.a2 < |sel| && c.b1 < |sel| && c.b2 < |sel|
    ensures RepetitionPenalty(sel, history, c) == REPEAT_PENALTY <==>
            exists k :: 0 <= k < |history| && |history| - HISTORY_WINDOW <= k &&
                        (Mentions(history[k], PairSig(sel[c.a1].id, sel[c.a2].id)) ||
                         Mentions(history[k], PairSig(sel[c.b1].id, sel[c.b2].id)))
  {
    var recent := LastN(history, HISTORY_WINDOW);
    var off := |history| - |recent|;
    assert forall k :: 0 <= k < |recent| ==> recent[k] == history[off + k];
    assert forall k :: off <= k < |history| ==> history[k] == recent[k - off];
  }

  function Abs(x: int): (r: int)
    ensures r >= 0 && (r == x || r == -x)
  {
    if x < 0 then -x else x
  }

  /** The repetition terms of the three splits, in the order of COMBINATIONS. */
  function Repetitions(sel: seq<Player>, history: seq<Signature>): (reps: seq<int>)
    requires |sel| == 4
    ensures |reps| == 3
    ensures forall i :: 0 <= i < 3 ==> reps[i] == RepetitionPenalty(sel, history, COMBINATIONS[i])
  {
    seq(3, k requires 0 <= k < 3 => RepetitionPenalty(sel, history, COMBINATIONS[k]))
  }

  /** The skill-sum gap of a split, `Math.abs(t1Level - t2Level)`. */
  function LevelDiff(skills: seq<int>, i: nat): (r: int)
    requires |skills| == 4 && i < 3
    ensures r >= 0
  {
    var c := COMBINATIONS[i];
    Abs((skills[c.a1] + skills[c.a2]) - (skills[c.b1] + skills[c.b2]))
  }

  /** The deterministic part of a split's penalty: twice the skill-sum gap plus repetition. */
  function BasePenalty(skills: seq<int>, reps: seq<int>, i: nat): int
    requires |skills| == 4 && |reps| == 3 && i < 3
  {
    LevelDiff(skills, i) * 2 + reps[i]
  }

  /** A jitter draw per split, each `Math.random() * 5`. */
  predicate ValidJitter(jitter: seq<real>)
  {
    |jitter| == 3 && forall i :: 0 <= i < 3 ==> 0.0 <= jitter[i] < 5.0
  }

  function Penalty(skills: seq<int>, reps: seq<int>, jitter: seq<real>, i: nat): real
    requires |skills| == 4 && |reps| == 3 && |jitter| == 3 && i < 3
  {
    BasePenalty(skills, reps, i) as real + jitter[i]
  }

  /** The index a strict `<` scan keeps: a minimum, the earliest among equals. */
  function FirstMin(pen: seq<real>): (best: nat)
    requires |pen| == 3
    ensures best < 3
    ensures forall j :: 0 <= j < 3 ==> pen[best] <= pen[j]
    ensures forall j :: 0 <= j < best ==> pen[j] > pen[best]
  {
    if pen[1] < pen[0] then (if pen[2] < pen[1] then 2 else 1)
    else if pen[2] < pen[0] then 2 else 0
  }

  /** The earliest minimum is the only index with both properties. */
  lemma FirstMinUnique(pen: seq<real>, b: nat)
    requires |pen| == 3 && b < 3
    requires forall j :: 0 <= j < 3 ==> pen[b] <= pen[j]
    requires forall j :: 0 <= j < b ==> pen[j] > pen[b]
    ensures b == FirstMin(pen)
  {
  }

  function Penalties(skills: seq<int>, reps: seq<int>, jitter: seq<real>): (pen: seq<real>)
    requires |skills| == 4 && |reps| == 3 && |jitter| == 3
    ensures |pen| == 3
  {
    [Penalty(skills, reps, jitter, 0), Penalty(skills, reps, jitter, 1), Penalty(skills, reps, jitter, 2)]
  }

  /** The split the pairing loop keeps, given the selection's skills and repetition terms. */
  function ChosenSplit(skills: seq<int>, reps: seq<int>, jitter: seq<real>): nat
    requires |skills| == 4 && |reps| == 3 && |jitter| == 3
  {
    FirstMin(Penalties(skills, reps, jitter))
  }

  /** One iteration's `totalPenalty`: twice the level gap, the repetition term and the jitter. */
  method SplitPenalty(skills: seq<int>, sel: seq<Player>, history: seq<Signature>, jitter: seq<real>, i: nat)
    returns (total: real)
    requires |skills| == 4 && |sel| == 4 && |jitter| == 3 && i < 3
    ensures total == Penalties(skills, Repetitions(sel, history), jitter)[i]
  {
    var repetition := RepetitionPenalty(sel, history, COMBINATIONS[i]);
    total := (LevelDiff(skills, i) * 2 + repetition) as real + jitter[i];
  }

  /** The `combinations.forEach` scan; `minPenalty` starts at Infinity (`haveMin` false). */
  method ChooseSplit(skills: seq<int>, sel: seq<Player>, history: seq<Signature>, jitter: seq<real>) returns (best: nat)
    requires |skills| == 4 && |sel| == 4 && |jitter| == 3
    ensures best == ChosenSplit(skills, Repetitions(sel, history), jitter)
  {
    ghost var pen := Penalties(skills, Repetitions(sel, history), jitter);
    best := 0;
    var haveMin := false;
    var minPenalty := 0.0;
    var i := 0;
    while i < 3
      invariant 0 <= i <= 3
      invariant haveMin <==> i > 0
      invariant i > 0 ==> best < i && minPenalty == pen[best]
      invariant forall j :: 0 <= j < i ==> minPenalty <= pen[j]
      invariant forall j :: 0 <= j < best ==> pen[j] > minPenalty
    {
      var total := SplitPenalty(skills, sel, history, jitter, i);
      if !haveMin || total < minPenalty {
        minPenalty, best, haveMin := total, i, true;
      }
      i := i + 1;
    }
    FirstMinUnique(pen, best);
  }

  /** Jitter is below 5: a split whose deterministic penalty is at least 5 above another's is never chosen. */
  lemma DominatedNeverChosen(skills: seq<int>, reps: seq<int>, jitter: seq<real>, i: nat, j: nat)
    requires |skills| == 4 && |reps| == 3 && ValidJitter(jitter) && i < 3 && j < 3
    requires BasePenalty(skills, reps, i) >= BasePenalty(skills, reps, j) + 5
    ensures ChosenSplit(skills, reps, jitter) != i
  {
    var pen := Penalties(skills, reps, jitter);
    assert pen[i] > pen[j];
  }

  /** Two weak and two strong players (skills 2, 2, 16, 16): the split pairing the two weak
      players together (gap 28, penalty at least 56) always loses to a mixed split (at most 50). */
  lemma MixedSplitChosen(skills: seq<int>, sel: seq<Player>, history: seq<Signature>, jitter: seq<real>)
    requires |sel| == 4 && ValidJitter(jitter) && skills == [2, 2, 16, 16]
    ensures ChosenSplit(skills, Repetitions(sel, history), jitter) in {1, 2}
  {
    var reps := Repetitions(sel, history);
    assert BasePenalty(skills, reps, 0) >= 56;
    assert BasePenalty(skills, reps, 1) <= 50;
    DominatedNeverChosen(skills, reps, jitter, 0, 1);
  }

  /** The same for players whose levels are the numerals "2", "2", "16", "16". */
  lemma MixedSplitChosenForNumerals(sel: seq<Player>, history: seq<Signature>, jitter: seq<real>)
    requires |sel| == 4 && ValidJitter(jitter)
    requires sel[0].level == Decimal(2) && sel[1].level == Decimal(2)
    requires sel[2].level == Decimal(16) && sel[3].level == Decimal(16)
    ensures ChosenSplit(Skills(sel), Repetitions(sel, history), jitter) in {1, 2}
  {
    LevelScoreOfNumeral(2);
    LevelScoreOfNumeral(16);
    MixedSplitChosen(Skills(sel), sel, history, jitter);
  }

  /** A balanced split that repeats no recent pair beats any split that repeats one. */
  lemma FreshBalancedBeatsRepeat(skills: seq<int>, sel: seq<Player>, history: seq<Signature>, jitter: seq<real>, i: nat, j: nat)
    requires |skills| == 4 && |sel| == 4 && ValidJitter(jitter) && i < 3 && j < 3
    requires BasePenalty(skills, Repetitions(sel, history), j) == 0
    requires RepetitionPenalty(sel, history, COMBINATIONS[i]) == REPEAT_PENALTY
    ensures ChosenSplit(skills, Repetitions(sel, history), jitter) != i
  {
    DominatedNeverChosen(skills, Repetitions(sel, history), jitter, i, j);
  }

  lemma SwapMiddle<T>(a: T, b: T, c: T, d: T)
    ensures multiset([a, c, b, d]) == multiset([a, b, c, d])
  {
    assert [a, b, c, d] == [a] + [b, c] + [d];
    assert [a, c, b, d] == [a] + [c, b] + [d];
    assert multiset([c, b]) == multiset([b, c]);
  }

  lemma SwapLast<T>(a: T, b: T, c: T, d: T)
    ensures multiset([a, b, d, c]) == multiset([a, b, c, d])
  {
    assert [a, b, c, d] == [a, b] + [c, d];
    assert [a, b, d, c] == [a, b] + [d, c];
    assert multiset([d, c]) == multiset([c, d]);
  }

  /** Each of the three seat orders is a rearrangement of the four players. */
  lemma SplitsPermute<T>(sel: seq<T>)
    requires |sel| == 4
    ensures multiset([sel[0], sel[1], sel[2], sel[3]]) == multiset(sel)
    ensures multiset([sel[0], sel[2], sel[1], sel[3]]) == multiset(sel)
    ensures multiset([sel[0], sel[3], sel[1], sel[2]]) == multiset(sel)
  {
    SplitOrders(sel[0], sel[1], sel[2], sel[3]);
    FourAsList(sel);
  }

  lemma SplitOrders<T>(a: T, b: T, c: T, d: T)
    ensures multiset([a, c, b, d]) == multiset([a, b, c, d])
    ensures multiset([a, d, b, c]) == multiset([a, b, c, d])
  {
    SwapMiddle(a, b, c, d);
    SwapMiddle(a, b, d, c);
    SwapLast(a, b, c, d);
  }

  lemma FourAsList<T>(sel: seq<T>)
    requires |sel| == 4
    ensures multiset([sel[0], sel[1], sel[2], sel[3]]) == multiset(sel)
  {
    assert sel == [sel[0], sel[1], sel[2], sel[3]];
  }

  /** The match the replenisher builds from the four selected players and a split. */
  function BuildMatch(sel: seq<Player>, i: nat, id: string): (m: Match)
    requires |sel| == 4 && i < 3
    ensures multiset(Slots(m)) == multiset(sel)
    ensures m.id == id && m.courtId == 0 && m.startTime == 0
  {
    SplitsPermute(sel);
    if i == 0 then Match(id, 0, Team(sel[0], sel[1]), Team(sel[2], sel[3]), 0)
    else if i == 1 then Match(id, 0, Team(sel[0], sel[2]), Team(sel[1], sel[3]), 0)
    else Match(id, 0, Team(sel[0], sel[3]), Team(sel[1], sel[2]), 0)
  }

  /** BuildMatch seats the players as the split in COMBINATIONS says. */
  lemma BuildMatchFollowsSplit(sel: seq<Player>, i: nat, id: string)
    requires |sel| == 4 && i < 3
    ensures var m, c := BuildMatch(sel, i, id), COMBINATIONS[i];
            m.teamA == Team(sel[c.a1], sel[c.a2]) && m.teamB == Team(sel[c.b1], sel[c.b2])
  {
  }
}
