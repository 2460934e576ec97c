/**
 * The tabular learners of agen.py: a table of action values keyed by action and then by
 * state key, epsilon-greedy action selection over the legal actions of a state key, and the
 * Q-learning and SARSA update rules. The two learner classes of the source differ only in
 * their update rule; here one class carries the rule as a constant.
 *
 * Randomness is injected: `draw` stands for `random.random()`, and `pick`/`tiePick` select
 * an element of the candidate list (reduced modulo its length) for `random.choice` and
 * `np.random.choice`. Values, alpha, gamma and epsilon are exact reals.
 */
module Learners {
  import opened Wrappers
  import opened Grids

  /** An `(i, j)` coordinate pair. */
  datatype Action = Action(row: int, col: int)

  /** One of the sixteen board coordinates. */
  predicate IsAction(a: Action)
  {
    0 <= a.row < 4 && 0 <= a.col < 4
  }

  /** The position in the state key of the cell an action targets: four per row, then the column (agen.py:36). */
  function CellOf(a: Action): int
  {
    a.row * 4 + a.col
  }

  /** The learner's action list (agen.py:20): every coordinate pair, row by row and within a row column by column. */
  function AllActions(): (r: seq<Action>)
    ensures |r| == 16
  {
    [Action(0, 0), Action(0, 1), Action(0, 2), Action(0, 3),
     Action(1, 0), Action(1, 1), Action(1, 2), Action(1, 3),
     Action(2, 0), Action(2, 1), Action(2, 2), Action(2, 3),
     Action(3, 0), Action(3, 1), Action(3, 2), Action(3, 3)]
  }

  /** Sixteen in-range actions, entry `k` targeting key character `k`: row-major order, so no action repeats. */
  predicate RowMajor(acts: seq<Action>)
  {
    |acts| == 16 && forall k :: 0 <= k < 16 ==> IsAction(acts[k]) && CellOf(acts[k]) == k
  }

  /** The source's action list is the sixteen coordinates in row-major order. */
  lemma AllActionsRowMajor()
    ensures RowMajor(AllActions())
  {
  }

  /** A row-major action list holds every coordinate pair, entry `4 * i + j` being `(i, j)`, and nothing else. */
  lemma RowMajorMember(acts: seq<Action>, a: Action)
    requires RowMajor(acts)
    ensures a in acts <==> IsAction(a)
    ensures IsAction(a) ==> acts[CellOf(a)] == a
  {
    if IsAction(a) {
      CellOfInjective(acts[CellOf(a)], a);
    }
  }

  /** Distinct coordinates target distinct key characters. */
  lemma CellOfInjective(a: Action, b: Action)
    requires IsAction(a) && IsAction(b) && CellOf(a) == CellOf(b)
    ensures a == b
  {
  }

  /** No action of a row-major list is listed twice. */
  lemma RowMajorDistinct(acts: seq<Action>, k: int, l: int)
    requires RowMajor(acts) && 0 <= k < l < 16
    ensures acts[k] != acts[l]
  {
    assert CellOf(acts[k]) == k && CellOf(acts[l]) == l;
  }

  /** The actions of `acts`, in order, whose cell is empty in state key `s` (agen.py:36 and 88). */
  function LegalActions(acts: seq<Action>, s: string): (r: seq<Action>)
    requires forall k :: 0 <= k < |acts| ==> 0 <= CellOf(acts[k]) < |s|
    ensures |r| <= |acts|
    ensures forall a :: a in r <==> a in acts && s[CellOf(a)] == '-'
  {
    if acts == [] then []
    else
      var rest := LegalActions(acts[1..], s);
      if s[CellOf(acts[0])] == '-' then [acts[0]] + rest else rest
  }

  /**
   * For a state key, the legal actions of a row-major action list are exactly the coordinates
   * whose character is `'-'`, and there are none exactly when no character among the sixteen is `'-'`.
   */
  lemma LegalActionsOfKey(acts: seq<Action>, s: string)
    requires RowMajor(acts) && |s| >= 16
    ensures forall k :: 0 <= k < |acts| ==> 0 <= CellOf(acts[k]) < |s|
    ensures forall a :: a in LegalActions(acts, s) <==> IsAction(a) && s[CellOf(a)] == '-'
    ensures LegalActions(acts, s) == [] <==> forall k :: 0 <= k < 16 ==> s[k] != '-'
  {
    var L := LegalActions(acts, s);
    forall a ensures a in L <==> IsAction(a) && s[CellOf(a)] == '-' {
      RowMajorMember(acts, a);
    }
    if L == [] {
      forall k | 0 <= k < 16 ensures s[k] != '-' {
        assert acts[k] !in L;
      }
    } else {
      assert L[0] in L;
    }
  }

  /** The value table: one mapping from state key to value per action. */
  type Table = map<Action, map<string, real>>

  /** The value of action `a` in state `s`; a state the action's table has not seen reads as 0, the `defaultdict(int)` default (agen.py:22). */
  function Lookup(q: Table, a: Action, s: string): real
    requires a in q
  {
    if s in q[a] then q[a][s] else 0.0
  }

  /** The largest value of the given actions in state `s`, as `np.max` and `max` take it (agen.py:43 and 90). */
  function MaxValue(q: Table, acts: seq<Action>, s: string): (m: real)
    requires |acts| > 0
    requires forall k :: 0 <= k < |acts| ==> acts[k] in q
    ensures exists k :: 0 <= k < |acts| && Lookup(q, acts[k], s) == m
    ensures forall k :: 0 <= k < |acts| ==> Lookup(q, acts[k], s) <= m
  {
    if |acts| == 1 then Lookup(q, acts[0], s)
    else
      var rest := MaxValue(q, acts[1..], s);
      var here := Lookup(q, acts[0], s);
      if here >= rest then here else rest
  }

  /** The given actions, in order, whose value in state `s` equals `m`: the greedy candidates of agen.py:43-44. */
  function Tied(q: Table, acts: seq<Action>, s: string, m: real): (r: seq<Action>)
    requires forall k :: 0 <= k < |acts| ==> acts[k] in q
    ensures forall a :: a in r <==> a in acts && Lookup(q, a, s) == m
  {
    if acts == [] then []
    else
      var rest := Tied(q, acts[1..], s, m);
      if Lookup(q, acts[0], s) == m then [acts[0]] + rest else rest
  }

  /** A candidate of the greedy choice is one of the actions, and no action has a larger value. */
  lemma TiedMaximal(q: Table, acts: seq<Action>, s: string, c: Action)
    requires |acts| > 0
    requires forall k :: 0 <= k < |acts| ==> acts[k] in q
    requires c in Tied(q, acts, s, MaxValue(q, acts, s))
    ensures c in acts
    ensures forall b :: b in acts ==> Lookup(q, b, s) <= Lookup(q, c, s)
  {
    forall b | b in acts ensures Lookup(q, b, s) <= Lookup(q, c, s) {
      var k :| 0 <= k < |acts| && acts[k] == b;
    }
  }

  /** The actions attaining the maximum form a non-empty list. */
  lemma TiedNonEmpty(q: Table, acts: seq<Action>, s: string)
    requires |acts| > 0
    requires forall k :: 0 <= k < |acts| ==> acts[k] in q
    ensures |Tied(q, acts, s, MaxValue(q, acts, s))| > 0
  {
    var m := MaxValue(q, acts, s);
    var k :| 0 <= k < |acts| && Lookup(q, acts[k], s) == m;
    assert acts[k] in Tied(q, acts, s, m);
  }

  /** The step every update rule takes (agen.py:90, 92, 122, 124): the prior value moved by the fraction `alpha` of its distance to the target. */
  function Blend(prior: real, target: real, alpha: real): real
  {
    prior + alpha * (target - prior)
  }

  /** A bootstrapped target: the reward plus `gamma` times the value of the successor (agen.py:90 and 122). */
  function Bootstrap(r: int, gamma: real, v: real): real
  {
    r as real + gamma * v
  }

  /**
   * With `alpha` in [0, 1] the new value is the convex combination of the prior value and the
   * target, so it lies between them and is no farther from the target than the prior value was.
   */
  lemma BlendBetween(prior: real, target: real, alpha: real)
    requires 0.0 <= alpha <= 1.0
    ensures Blend(prior, target, alpha) == (1.0 - alpha) * prior + alpha * target
    ensures prior <= target ==> prior <= Blend(prior, target, alpha) <= target
    ensures target <= prior ==> target <= Blend(prior, target, alpha) <= prior
    ensures Blend(prior, target, alpha) - target == (1.0 - alpha) * (prior - target)
  {
    assert Blend(prior, target, alpha) - prior == alpha * (target - prior);
    if prior <= target {
      ScaleDown(alpha, target - prior);
    } else {
      ScaleDown(alpha, prior - target);
      assert alpha * (target - prior) == -(alpha * (prior - target));
    }
  }

  /** A fraction in [0, 1] of a non-negative amount lies between 0 and the amount. */
  lemma ScaleDown(alpha: real, d: real)
    requires 0.0 <= alpha <= 1.0 && 0.0 <= d
    ensures 0.0 <= alpha * d <= d
  {
    assert d - alpha * d == (1.0 - alpha) * d;
    assert 0.0 <= (1.0 - alpha) * d;
  }

  /**
   * The worked figures of the update rules: with alpha 0.5 and gamma 0.9, a prior of 0 and next
   * values 0.2, 0.5 and 0.1, Q-learning bootstraps off the maximum 0.5 and moves to 0.225, while
   * SARSA with the next action of value 0.1 moves to 0.045; a terminal update with reward 1 moves
   * a prior of 0.2 to 0.6.
   */
  lemma UpdateFigures(s: string)
    ensures var q := map[Action(0, 0) := map[s := 0.2], Action(0, 1) := map[s := 0.5], Action(0, 2) := map[s := 0.1]];
      var acts := [Action(0, 0), Action(0, 1), Action(0, 2)];
      MaxValue(q, acts, s) == 0.5 &&
      Blend(0.0, Bootstrap(0, 0.9, MaxValue(q, acts, s)), 0.5) == 0.225 &&
      Blend(0.0, Bootstrap(0, 0.9, Lookup(q, Action(0, 2), s)), 0.5) == 0.045 &&
      Blend(0.2, 1 as real, 0.5) == 0.6
  {
    var q := map[Action(0, 0) := map[s := 0.2], Action(0, 1) := map[s := 0.5], Action(0, 2) := map[s := 0.1]];
    var acts := [Action(0, 0), Action(0, 1), Action(0, 2)];
    assert acts[1..] == [Action(0, 1), Action(0, 2)] && acts[1..][1..] == [Action(0, 2)];
    assert MaxValue(q, acts[1..][1..], s) == 0.1;
  }

  /** Epsilon after one selection: scaled down by the factor one minus the decay (agen.py:47). */
  function Decay(eps: real, decay: real): real
  {
    eps * (1.0 - decay)
  }

  /** Epsilon after `n` selections. */
  function EpsAfter(eps: real, decay: real, n: nat): real
  {
    if n == 0 then eps else Decay(EpsAfter(eps, decay, n - 1), decay)
  }

  /** `x` to the power `n`. */
  function Power(x: real, n: nat): real
  {
    if n == 0 then 1.0 else x * Power(x, n - 1)
  }

  /** Geometric decay: after `n` selections epsilon is `eps * (1 - decay)^n`. */
  lemma {:induction false} EpsAfterClosedForm(eps: real, decay: real, n: nat)
    ensures EpsAfter(eps, decay, n) == eps * Power(1.0 - decay, n)
  {
    if n > 0 {
      EpsAfterClosedForm(eps, decay, n - 1);
      Regroup(EpsAfter(eps, decay, n - 1), eps, Power(1.0 - decay, n - 1), 1.0 - decay);
    }
  }

  /** The product regrouping behind the inductive step of `EpsAfterClosedForm`. */
  lemma Regroup(e: real, a: real, p: real, f: real)
    requires e == a * p
    ensures e * f == a * (f * p)
  {
  }

  /** With the default decay of 0, epsilon never changes. */
  lemma {:induction false} EpsAfterNoDecay(eps: real, n: nat)
    ensures EpsAfter(eps, 0.0, n) == eps
  {
    if n > 0 {
      EpsAfterNoDecay(eps, n - 1);
    }
  }

  /** With `0 <= decay <= 1` and `eps >= 0`, epsilon never grows and never becomes negative. */
  lemma {:induction false} EpsAfterDecreases(eps: real, decay: real, n: nat)
    requires 0.0 <= decay <= 1.0 && 0.0 <= eps
    ensures 0.0 <= EpsAfter(eps, decay, n) <= eps
  {
    if n > 0 {
      EpsAfterDecreases(eps, decay, n - 1);
      var e := EpsAfter(eps, decay, n - 1);
      assert 0.0 <= e * (1.0 - decay) <= e;
    }
  }

  /** The polymorphic point of the two learner classes: which update rule is applied. */
  datatype Rule = QLearning | Sarsa

  class Learner {
    const rule: Rule
    var alpha: real
    var gamma: real
    var eps: real
    var epsDecay: real
    const actions: seq<Action>
    var Q: Table
    var rewards: seq<int>

    /** The action list is fixed and the table has exactly one inner mapping per action. */
    ghost predicate Valid()
      reads this`Q
    {
      RowMajor(actions) && forall a :: a in Q <==> IsAction(a)
    }

    /** `Learner.__init__`: every value starts at 0 and the reward history is empty. */
    constructor (rule: Rule, alpha: real, gamma: real, eps: real, epsDecay: real := 0.0)
      ensures Valid()
      ensures this.rule == rule && this.alpha == alpha && this.gamma == gamma
      ensures this.eps == eps && this.epsDecay == epsDecay
      ensures forall a, s :: IsAction(a) ==> Lookup(Q, a, s) == 0.0
      ensures rewards == []
    {
      this.rule := rule;
      this.alpha := alpha;
      this.gamma := gamma;
      this.eps := eps;
      this.epsDecay := epsDecay;
      actions := AllActions();
      new;
      AllActionsRowMajor();
      forall a ensures a in AllActions() <==> IsAction(a) {
        RowMajorMember(AllActions(), a);
      }
      Q := map a | a in AllActions() :: map[];
      rewards := [];
    }

    /**
     * `get_action`: an epsilon-greedy choice among the legal actions of `s`, or `None` where the
     * source raises (a key shorter than sixteen characters, or no legal action).
     */
    method GetAction(s: string, draw: real, pick: nat, tiePick: nat) returns (choice: Option<Action>)
      requires Valid()
      modifies this`eps
      ensures Valid()
      ensures choice.None? <==> |s| < 16 || forall k :: 0 <= k < 16 ==> s[k] != '-'
      ensures choice.Some? ==> IsAction(choice.value) && s[CellOf(choice.value)] == '-'
      ensures choice.Some? && draw < old(eps) ==>
        choice.value == LegalActionsAt(s)[pick % |LegalActionsAt(s)|]
      ensures choice.Some? && draw >= old(eps) ==>
        forall b :: IsAction(b) && s[CellOf(b)] == '-' ==> Lookup(Q, b, s) <= Lookup(Q, choice.value, s)
      ensures eps == if choice.Some? then Decay(old(eps), epsDecay) else old(eps)
    {
      if |s| < 16 {
        return None;
      }
      LegalActionsOfKey(actions, s);
      var possible := LegalActions(actions, s);
      if possible == [] {
        return None;
      }
      var action: Action;
      if draw < eps {
        action := possible[pick % |possible|];
      } else {
        var m := MaxValue(Q, possible, s);
        TiedNonEmpty(Q, possible, s);
        var best := Tied(Q, possible, s, m);
        action := best[tiePick % |best|];
        TiedMaximal(Q, possible, s, action);
      }
      eps := Decay(eps, epsDecay);
      choice := Some(action);
    }

    /** The legal actions of a state key of at least sixteen characters, in row-major order. */
    function LegalActionsAt(s: string): (r: seq<Action>)
      reads this`Q
      requires Valid() && |s| >= 16
      ensures forall a :: a in r <==> IsAction(a) && s[CellOf(a)] == '-'
      ensures forall k :: 0 <= k < |r| ==> r[k] in Q
      ensures r == [] <==> forall k :: 0 <= k < 16 ==> s[k] != '-'
    {
      LegalActionsOfKey(actions, s);
      LegalActions(actions, s)
    }

    /** Whether `update` completes, rather than raising `KeyError`, `IndexError` or `ValueError`. */
    predicate UpdateCompletes(next: Option<string>, a: Action, nextAction: Option<Action>)
      reads this`Q
      requires Valid()
    {
      IsAction(a) &&
      (next.Some? ==>
        match rule
        case QLearning => |next.value| >= 16 && LegalActionsAt(next.value) != []
        case Sarsa => nextAction.Some? && IsAction(nextAction.value))
    }

    /**
     * `update(s, s_, a, a_, r)`: moves `Q[a][s]` toward the rule's target by `alpha`, changes no
     * other value, and appends `r` to the rewards. Where the source raises, nothing changes.
     */
    method Update(s: string, next: Option<string>, a: Action, nextAction: Option<Action>, r: int)
      returns (ok: bool)
      requires Valid()
      modifies this`Q, this`rewards
      ensures Valid()
      ensures ok == old(UpdateCompletes(next, a, nextAction))
      ensures ok && next.None? ==>
        Lookup(Q, a, s) == Blend(old(Lookup(Q, a, s)), r as real, alpha)
      ensures ok && next.Some? && rule == QLearning ==>
        Lookup(Q, a, s) == Blend(old(Lookup(Q, a, s)),
                                 Bootstrap(r, gamma, old(MaxValue(Q, LegalActionsAt(next.value), next.value))), alpha)
      ensures ok && next.Some? && rule == Sarsa ==>
        Lookup(Q, a, s) == Blend(old(Lookup(Q, a, s)), Bootstrap(r, gamma, old(Lookup(Q, nextAction.value, next.value))), alpha)
      ensures forall b, t :: IsAction(b) && (b != a || t != s || !ok) ==> Lookup(Q, b, t) == old(Lookup(Q, b, t))
      ensures rewards == if ok then old(rewards) + [r] else old(rewards)
    {
      ok := UpdateCompletes(next, a, nextAction);
      if !ok {
        return;
      }
      var prior := Lookup(Q, a, s);
      var target: real;
      if next.None? {
        target := r as real;
      } else if rule == QLearning {
        target := Bootstrap(r, gamma, MaxValue(Q, LegalActionsAt(next.value), next.value));
      } else {
        target := Bootstrap(r, gamma, Lookup(Q, nextAction.value, next.value));
      }
      Q := Q[a := Q[a][s := Blend(prior, target, alpha)]];
      rewards := rewards + [r];
    }
  }
}
