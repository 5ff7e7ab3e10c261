/** The "Consultar Pré-Aprovado" journey (`consultar_pre_aprovado_journey`).

    The journey is a fixed graph of chat and tool states. Which outgoing
    transition fires is decided at run time by the dialogue runtime; here the
    inputs that decide it are events: `Continue` for an unconditional
    transition, `LookupReturned(r)` for the answer of the pre-approval tool,
    and `ConditionsAnswer(wants)` for the customer's answer to "do you want to
    see the conditions?".
 */
module Journey {
  import opened Identifier
  import opened Accounts

  datatype State =
    | Initial              // journey.initial_state
    | AskId                // chat: ask for the customer identifier
    | LookupPreApproval    // tool: obter_pre_aprovado
    | InvalidId            // chat: the identifier is invalid, ask again
    | NoPreApproval        // chat: no pre-approval, close
    | HasPreApproval       // chat: show the amount, offer the conditions
    | FetchConditions      // tool: obter_condicoes_emprestimo
    | ShowConditions       // chat: present the conditions and close
    | DeclineConditions    // chat: thank the customer and close
    | End                  // END_JOURNEY

  datatype Event =
    | Continue
    | LookupReturned(result: LookupResult)
    | ConditionsAnswer(wants: bool)

  /** The three guards on the transitions out of the lookup tool state. */
  predicate InvalidBranch(r: LookupResult) { r.Invalid? }                     // "Status INVALID"
  predicate ZeroBranch(r: LookupResult) { r.Ok? && r.amount == 0 }            // "Status OK e valor_pre_aprovado igual a 0"
  predicate PositiveBranch(r: LookupResult) { r.Ok? && r.amount > 0 }         // "Status OK e valor_pre_aprovado maior que 0"

  /** The transitions as the journey declares them, one pair per `transition_to`. */
  function Graph(): (g: set<(State, State)>)
    ensures forall p :: p in g ==> p.0 != End && p.1 != Initial
    ensures forall t :: (LookupPreApproval, t) in g <==> t in {InvalidId, NoPreApproval, HasPreApproval}
  {
    {
      (Initial, AskId),
      (AskId, LookupPreApproval),
      (LookupPreApproval, InvalidId),
      (InvalidId, AskId),
      (LookupPreApproval, NoPreApproval),
      (NoPreApproval, End),
      (LookupPreApproval, HasPreApproval),
      (HasPreApproval, FetchConditions),
      (FetchConditions, ShowConditions),
      (ShowConditions, End),
      (HasPreApproval, DeclineConditions),
      (DeclineConditions, End)
    }
  }

  /** The state the journey moves to from `s` on event `e`; `None` when no
      transition of `s` accepts `e`. */
  function Step(s: State, e: Event): (r: Option<State>)
    ensures r.Some? ==> (s, r.value) in Graph()
  {
    match (s, e)
    case (Initial, Continue) => Some(AskId)
    case (AskId, Continue) => Some(LookupPreApproval)
    case (LookupPreApproval, LookupReturned(r)) =>
      if InvalidBranch(r) then Some(InvalidId)
      else if ZeroBranch(r) then Some(NoPreApproval)
      else if PositiveBranch(r) then Some(HasPreApproval)
      else None
    case (InvalidId, Continue) => Some(AskId)
    case (NoPreApproval, Continue) => Some(End)
    case (HasPreApproval, ConditionsAnswer(wants)) =>
      if wants then Some(FetchConditions) else Some(DeclineConditions)
    case (FetchConditions, Continue) => Some(ShowConditions)
    case (ShowConditions, Continue) => Some(End)
    case (DeclineConditions, Continue) => Some(End)
    case _ => None
  }

  /** The state reached from `s` after the events `es`, if every event is accepted. */
  function Run(s: State, es: seq<Event>): Option<State>
    decreases |es|
  {
    if es == [] then Some(s)
    else
      match Step(s, es[0])
      case None => None
      case Some(t) => Run(t, es[1..])
  }

  /** The most steps the journey can still take from a state without going
      through the retry branch. */
  function Rank(s: State): nat {
    match s
    case Initial => 6
    case AskId => 5
    case LookupPreApproval => 4
    case InvalidId => 6
    case HasPreApproval => 3
    case FetchConditions => 2
    case NoPreApproval => 1
    case ShowConditions => 1
    case DeclineConditions => 1
    case End => 0
  }

  /** The event is an INVALID answer of the lookup tool. */
  predicate IsRetry(e: Event) {
    e.LookupReturned? && e.result.Invalid?
  }

  /** The states from which the journey has not yet had an OK lookup. */
  predicate BeforeLookupSucceeds(s: State) {
    s == Initial || s == AskId || s == LookupPreApproval || s == InvalidId
  }

  // ---------------------------------------------------------------------------
  // The transition function is the declared graph
  // ---------------------------------------------------------------------------

  /** Every declared transition is taken on some event. */
  lemma GraphEdgesAreSteps(s: State, t: State)
    ensures (s, t) in Graph() <==> exists e :: Step(s, e) == Some(t)
  {
    if (s, t) in Graph() {
      var r0 := Ok("", 0);
      var e :=
        if s == LookupPreApproval then
          LookupReturned(if t == InvalidId then Invalid(InvalidReason) else if t == NoPreApproval then r0 else Ok("", 1))
        else if s == HasPreApproval then ConditionsAnswer(t == FetchConditions)
        else Continue;
      assert Step(s, e) == Some(t);
    }
    if exists e :: Step(s, e) == Some(t) {
      var e :| Step(s, e) == Some(t);
    }
  }

  /** END has no way out, and every other state has one. */
  lemma OnlyEndIsFinal(s: State)
    ensures s == End <==> forall e :: Step(s, e).None?
  {
    if s != End {
      var e := if s == LookupPreApproval then LookupReturned(Invalid(InvalidReason))
               else if s == HasPreApproval then ConditionsAnswer(false)
               else Continue;
      assert Step(s, e).Some?;
    }
  }

  // ---------------------------------------------------------------------------
  // The branches out of the lookup
  // ---------------------------------------------------------------------------

  /** The three guards exclude each other and cover every answer whose amount
      is not negative; no guard holds for a negative amount. */
  lemma BranchesPartition(r: LookupResult)
    ensures !(InvalidBranch(r) && ZeroBranch(r))
    ensures !(InvalidBranch(r) && PositiveBranch(r))
    ensures !(ZeroBranch(r) && PositiveBranch(r))
    ensures (InvalidBranch(r) || ZeroBranch(r) || PositiveBranch(r)) <==> (r.Invalid? || r.amount >= 0)
  {
  }

  /** An answer with a non-negative amount is accepted by the lookup state,
      and it goes to the retry branch exactly when it is INVALID. */
  lemma AnswerAccepted(r: LookupResult)
    requires r.Invalid? || r.amount >= 0
    ensures Step(LookupPreApproval, LookupReturned(r)).Some?
    ensures Step(LookupPreApproval, LookupReturned(r)) == Some(InvalidId) <==> r.Invalid?
  {
  }

  /** Every answer the lookup tool gives on a store that keeps its invariant
      is accepted by the lookup state, and it goes to the retry branch exactly
      when the normalised identifier is too short. */
  lemma ToolAnswersTakeOneBranch(m: map<string, Account>, raw: Option<string>, d: Draw)
    requires ValidDraw(d) && StoreInvariant(m)
    ensures var r := Lookup(m, raw, d).0;
            Step(LookupPreApproval, LookupReturned(r)).Some?
            && (Step(LookupPreApproval, LookupReturned(r)) == Some(InvalidId) <==> !WellFormed(NormalizeId(raw)))
  {
    var r := Lookup(m, raw, d).0;
    LookupKeepsInvariant(m, raw, d);
    AnswerAccepted(r);
  }

  /** INVALID goes back to asking for the identifier. */
  /** From the journey's start, asking for the identifier and calling the tool
      reach the branch that the tool's answer selects. */
  lemma BranchesReachableFromStart(r: LookupResult)
    ensures InvalidBranch(r) ==> Run(Initial, [Continue, Continue, LookupReturned(r)]) == Some(InvalidId)
    ensures ZeroBranch(r) ==> Run(Initial, [Continue, Continue, LookupReturned(r)]) == Some(NoPreApproval)
    ensures PositiveBranch(r) ==> Run(Initial, [Continue, Continue, LookupReturned(r)]) == Some(HasPreApproval)
  {
    var es := [Continue, Continue, LookupReturned(r)];
    assert es[1..] == [Continue, LookupReturned(r)];
    assert es[1..][1..] == [LookupReturned(r)];
    assert Run(Initial, es) == Run(AskId, es[1..]);
    assert Run(AskId, es[1..]) == Run(LookupPreApproval, [LookupReturned(r)]);
  }

  lemma InvalidRetries(r: LookupResult)
    requires InvalidBranch(r)
    ensures Run(LookupPreApproval, [LookupReturned(r), Continue]) == Some(AskId)
  {
    var es := [LookupReturned(r), Continue];
    assert es[1..] == [Continue];
    assert Run(InvalidId, [Continue]) == Run(AskId, []);
  }

  /** The retry loop is a cycle: a customer who keeps giving invalid
      identifiers is asked again forever. */
  lemma RetryCycle(r: LookupResult)
    requires InvalidBranch(r)
    ensures Run(AskId, [Continue, LookupReturned(r), Continue]) == Some(AskId)
  {
    var es := [Continue, LookupReturned(r), Continue];
    assert es[1..] == [LookupReturned(r), Continue];
    InvalidRetries(r);
  }

  /** OK with zero closes the journey. */
  lemma ZeroEnds(r: LookupResult)
    requires ZeroBranch(r)
    ensures Run(LookupPreApproval, [LookupReturned(r), Continue]) == Some(End)
  {
    var es := [LookupReturned(r), Continue];
    assert es[1..] == [Continue];
    assert Run(NoPreApproval, [Continue]) == Run(End, []);
  }

  /** OK with a positive amount closes the journey both when the customer
      sees the conditions and when they decline. */
  lemma PositiveEnds(r: LookupResult)
    requires PositiveBranch(r)
    ensures Run(LookupPreApproval, [LookupReturned(r), ConditionsAnswer(true), Continue, Continue]) == Some(End)
    ensures Run(LookupPreApproval, [LookupReturned(r), ConditionsAnswer(false), Continue]) == Some(End)
  {
    var yes := [LookupReturned(r), ConditionsAnswer(true), Continue, Continue];
    assert yes[1..] == [ConditionsAnswer(true), Continue, Continue];
    assert yes[1..][1..] == [Continue, Continue];
    assert yes[1..][1..][1..] == [Continue];
    assert Run(ShowConditions, [Continue]) == Run(End, []);
    assert Run(FetchConditions, [Continue, Continue]) == Run(ShowConditions, [Continue]);
    assert Run(HasPreApproval, yes[1..]) == Run(FetchConditions, [Continue, Continue]);
    var no := [LookupReturned(r), ConditionsAnswer(false), Continue];
    assert no[1..] == [ConditionsAnswer(false), Continue];
    assert no[1..][1..] == [Continue];
    assert Run(DeclineConditions, [Continue]) == Run(End, []);
    assert Run(HasPreApproval, no[1..]) == Run(DeclineConditions, [Continue]);
  }

  /** The conditions tool runs only after the customer, shown a positive
      amount, asked for the conditions. */
  lemma ConditionsOnlyOnRequest(s: State, e: Event)
    ensures Step(s, e) == Some(FetchConditions) <==> s == HasPreApproval && e == ConditionsAnswer(true)
  {
  }

  // ---------------------------------------------------------------------------
  // Termination
  // ---------------------------------------------------------------------------

  /** Every step lowers the rank, except the INVALID branch. */
  lemma StepLowersRank(s: State, e: Event)
    requires Step(s, e).Some? && !IsRetry(e)
    ensures Rank(Step(s, e).value) < Rank(s)
  {
  }

  /** Without an INVALID answer the journey takes at most `Rank(s)` steps: from
      the start, at most six. */
  lemma {:induction false} RunWithoutRetryIsBounded(s: State, es: seq<Event>)
    requires Run(s, es).Some?
    requires forall i :: 0 <= i < |es| ==> !IsRetry(es[i])
    ensures |es| + Rank(Run(s, es).value) <= Rank(s)
    decreases |es|
  {
    if es != [] {
      var t := Step(s, es[0]).value;
      StepLowersRank(s, es[0]);
      assert forall i :: 0 <= i < |es[1..]| ==> es[1..][i] == es[i + 1];
      RunWithoutRetryIsBounded(t, es[1..]);
    }
  }

  /** The journey cannot end before the lookup answers OK: the only way out of
      the retry loop is a well-formed identifier. */
  lemma {:induction false} EndNeedsOkLookup(s: State, es: seq<Event>)
    requires BeforeLookupSucceeds(s)
    requires Run(s, es) == Some(End)
    ensures exists i :: 0 <= i < |es| && es[i].LookupReturned? && es[i].result.Ok?
    decreases |es|
  {
    var t := Step(s, es[0]).value;
    if !(es[0].LookupReturned? && es[0].result.Ok?) {
      assert BeforeLookupSucceeds(t);
      EndNeedsOkLookup(t, es[1..]);
      var i :| 0 <= i < |es[1..]| && es[1..][i].LookupReturned? && es[1..][i].result.Ok?;
      assert es[i + 1] == es[1..][i];
    }
  }
}
