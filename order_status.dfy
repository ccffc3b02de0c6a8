/** The order status enum: four states, a closed transition table, and the
    presentation label and colour of each state. */
module OrderStatusEnum {
  import opened Common

  datatype Status = Draft | Pending | Paid | Cancelled {

    /** The backing string of the enum case. */
    function Value(): (v: string)
      ensures v in ["draft", "pending", "paid", "cancelled"]
    {
      match this
      case Draft => "draft"
      case Pending => "pending"
      case Paid => "paid"
      case Cancelled => "cancelled"
    }

    /** The states this one may move to, in table order. */
    function AllowedTransitions(): (r: seq<Status>)
      ensures |r| <= 2
      ensures forall i :: 0 <= i < |r| ==> r[i] != this && r[i] != Draft
      ensures forall i, j :: 0 <= i < j < |r| ==> r[i] != r[j]
    {
      match this
      case Draft => [Pending]
      case Pending => [Paid, Cancelled]
      case Paid => []
      case Cancelled => []
    }

    /** `in_array($next, $this->allowedTransitions(), true)`. */
    function CanTransitionTo(next: Status): (r: bool)
      ensures r <==> next in AllowedTransitions()
      ensures r ==> next != this && next != Draft && Rank(this) < Rank(next)
    {
      next in AllowedTransitions()
    }

    /** The display label. */
    function Label(): (r: string)
      ensures |r| > 0
    {
      match this
      case Draft => "Rascunho"
      case Pending => "Pendente"
      case Paid => "Pago"
      case Cancelled => "Cancelado"
    }

    /** The display colour. */
    function Color(): (r: string)
      ensures IsHexColor(r)
    {
      match this
      case Draft => "#6b7280"
      case Pending => "#f59e0b"
      case Paid => "#10b981"
      case Cancelled => "#ef4444"
    }

    /** Paid and cancelled are final: exactly the states with no way out. */
    function IsFinal(): (r: bool)
      ensures r <==> AllowedTransitions() == []
    {
      this in [Paid, Cancelled]
    }
  }

  /** The enum cases in declaration order. */
  const Cases: seq<Status> := [Draft, Pending, Paid, Cancelled]

  /** `OrderStatus::values()`: the backing strings in declaration order. */
  function Values(): (r: seq<string>)
    ensures r == ["draft", "pending", "paid", "cancelled"]
    ensures |r| == |Cases| && forall i :: 0 <= i < |r| ==> r[i] == Cases[i].Value()
  {
    seq(|Cases|, i requires 0 <= i < |Cases| => Cases[i].Value())
  }

  /** `OrderStatus::tryFrom($token)`: the case whose backing string is `token`. */
  function TryFrom(token: string): (r: Option<Status>)
    ensures r.Some? <==> token in Values()
    ensures r.Some? ==> r.value.Value() == token
  {
    if token == "draft" then Some(Draft)
    else if token == "pending" then Some(Pending)
    else if token == "paid" then Some(Paid)
    else if token == "cancelled" then Some(Cancelled)
    else None
  }

  predicate IsHexDigit(c: char) {
    '0' <= c <= '9' || 'a' <= c <= 'f' || 'A' <= c <= 'F'
  }

  /** Matches `/^#[0-9a-fA-F]{6}$/`. */
  predicate IsHexColor(s: string) {
    |s| == 7 && s[0] == '#' && forall i :: 1 <= i < 7 ==> IsHexDigit(s[i])
  }

  /** How far along the lifecycle a state is; every allowed transition raises it. */
  function Rank(s: Status): nat {
    match s
    case Draft => 0
    case Pending => 1
    case Paid => 2
    case Cancelled => 2
  }

  /** The transition table, as an independent list of the allowed pairs. */
  lemma TransitionTable(a: Status, b: Status)
    ensures a.CanTransitionTo(b) <==>
            (a == Draft && b == Pending) || (a == Pending && b == Paid) || (a == Pending && b == Cancelled)
  {
  }

  /** A state is final exactly when no transition out of it is allowed. */
  lemma FinalIffStuck(s: Status)
    ensures s.IsFinal() <==> forall t: Status :: !s.CanTransitionTo(t)
  {
    if !s.IsFinal() {
      assert s.CanTransitionTo(s.AllowedTransitions()[0]);
    }
  }

  /** Every enum case is reached by TryFrom from its own backing string, and no two
      cases share a backing string. */
  lemma TryFromValue(s: Status)
    ensures TryFrom(s.Value()) == Some(s)
  {
  }

  /** A run of the lifecycle: each step is an allowed transition. */
  predicate IsRun(p: seq<Status>) {
    forall i :: 0 <= i < |p| - 1 ==> p[i].CanTransitionTo(p[i + 1])
  }

  /** Along a run the rank strictly increases. */
  lemma {:induction false} RunRaisesRank(p: seq<Status>)
    requires IsRun(p)
    ensures forall i, j :: 0 <= i < j < |p| ==> Rank(p[i]) < Rank(p[j])
  {
    if |p| > 1 {
      RunRaisesRank(p[1..]);
      forall i, j | 0 <= i < j < |p|
        ensures Rank(p[i]) < Rank(p[j])
      {
        if i > 0 {
          assert p[i] == p[1..][i - 1] && p[j] == p[1..][j - 1];
        } else if j > 1 {
          assert p[j] == p[1..][j - 1] && p[1] == p[1..][0];
        }
      }
    }
  }

  /** The machine is acyclic: no run visits a state twice, so it is at most three
      states long (draft, pending, then paid or cancelled). */
  lemma RunsAreAcyclic(p: seq<Status>)
    requires IsRun(p)
    ensures forall i, j :: 0 <= i < j < |p| ==> p[i] != p[j]
    ensures |p| <= 3
  {
    RunRaisesRank(p);
    if |p| > 3 {
      assert Rank(p[0]) < Rank(p[1]) < Rank(p[2]) < Rank(p[3]);
    }
  }

  /** The only way out of draft is pending, and nothing returns to draft. */
  lemma LeavingDraft(p: seq<Status>)
    requires IsRun(p) && |p| >= 2 && p[0] == Draft
    ensures p[1] == Pending
    ensures forall i :: 1 <= i < |p| ==> p[i] != Draft
  {
    RunRaisesRank(p);
  }

  /** The display distinguishes the states: no two share a label or a colour. */
  lemma LabelsAndColorsDistinct(a: Status, b: Status)
    requires a != b
    ensures a.Label() != b.Label() && a.Color() != b.Color()
  {
  }

  /** Every final state is reached from draft in exactly two steps. */
  lemma FinalStatesReachable(s: Status)
    requires s.IsFinal()
    ensures IsRun([Draft, Pending, s])
  {
  }
}
