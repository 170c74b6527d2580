/** The state that accumulates over a composition, and how one template's terminal state is
    merged into it. */
module SharedState {
  import opened Wrappers
  import opened Models
  import opened Namespace

  datatype QuestionKind = Confirm | Date | Checkbox | Password | TextInput | Select

  /** A question: its id, kind, and everything else it carries. */
  datatype Question = Question(id: string, kind: QuestionKind, details: Json)

  datatype TemplateState =
    | QnA
    | Complete(answers: Answers)
    | NeedInput(question: Question, deterministicState: States)
    | Failed(message: string)

  datatype Shared = Shared(answers: Answers, states: States, executionOrder: seq<string>, needInput: Option<Question>)

  /** Scopes a terminal state to a namespace, when there is one: the question's id always, an
      answer's key as in `Namespace.Target`, collected in the given hash order. */
  ghost function NamespaceState(state: TemplateState, ns: Option<string>, supplied: Answers,
                                order: seq<string>): TemplateState {
    match ns
    case None => state
    case Some(n) =>
      match state
      case NeedInput(question, det) => NeedInput(question.(id := Scoped(n, question.id)), det)
      case Complete(answers) => Complete(ScopedIn(n, answers, supplied, order))
      case _ => state
  }

  /** Scoping this state gives the same result in every hash order. */
  ghost predicate OrderFree(state: TemplateState, ns: Option<string>, supplied: Answers) {
    state.Complete? && ns.Some? ==> !Collides(ns.value, state.answers, supplied)
  }

  /** Some key would change the type of its answer. */
  ghost predicate TypeConflict(shared: Answers, answers: Answers) {
    exists key :: key in shared && key in answers && !shared[key].SameKind(answers[key])
  }

  /** The state after a template; None on a type conflict. */
  ghost function Updated(s: Shared, state: TemplateState, templateId: string): Option<Shared> {
    if state.Complete? && TypeConflict(s.answers, state.answers) then None
    else
      var merged := if state.Complete? then s.answers + state.answers else s.answers;
      var asked := if state.NeedInput? then Some(state.question) else s.needInput;
      Some(Shared(merged, s.states, s.executionOrder + [templateId], asked))
  }

  /** Without collisions every hash order scopes alike. */
  lemma OrderFreeScoping(state: TemplateState, ns: Option<string>, supplied: Answers, order: seq<string>)
    requires OrderFree(state, ns, supplied)
    ensures NamespaceState(state, ns, supplied, order) ==
            if state.Complete? then Complete(Namespaced(ns, state.answers, supplied))
            else NamespaceState(state, ns, supplied, [])
  {
    if state.Complete? && ns.Some? && IterationOrder(order, state.answers.Keys) {
      CollectWithoutCollisions(ns.value, state.answers, supplied, order);
    }
  }

  method NamespaceTemplateState(state: TemplateState, ns: Option<string>, supplied: Answers)
      returns (r: TemplateState, ghost order: seq<string>)
    ensures r == NamespaceState(state, ns, supplied, order)
    ensures state.Complete? ==> IterationOrder(order, state.answers.Keys)
  {
    order := [];
    if state.Complete? {
      order := OrderExists(state.answers.Keys);
    }
    if ns.None? {
      return state, order;
    }
    match state {
      case NeedInput(question, det) =>
        r := NeedInput(question.(id := Scoped(ns.value, question.id)), det);
      case Complete(answers) =>
        var namespaced;
        namespaced, order := NamespaceAnswers(ns, answers, supplied);
        r := Complete(namespaced);
      case _ =>
        r := state;
    }
  }

  class CompositionState {
    var answers: Answers
    var states: States
    var executionOrder: seq<string>
    var needInput: Option<Question>

    constructor (initial: Shared)
      ensures View() == initial
    {
      answers, states, executionOrder, needInput :=
        initial.answers, initial.states, initial.executionOrder, initial.needInput;
    }

    function View(): Shared
      reads this
    {
      Shared(answers, states, executionOrder, needInput)
    }

    method PushOrder(templateId: string)
      modifies this
      ensures View() == old(View()).(executionOrder := old(executionOrder) + [templateId])
    {
      executionOrder := executionOrder + [templateId];
    }

    /** Merges answers one by one, in hash order; stops at a type conflict with the earlier
        keys already merged. */
    method UpdateFromTemplateState(state: TemplateState, templateId: string) returns (ok: bool)
      modifies this
      ensures var updated := Updated(old(View()), state, templateId);
              ok == updated.Some? && (ok ==> View() == updated.value)
      ensures !ok ==> executionOrder == old(executionOrder) && needInput == old(needInput) && states == old(states)
      ensures !ok ==> old(answers).Keys <= answers.Keys
    {
      match state {
        case Complete(incoming) =>
          ok := MergeAnswers(incoming);
          if !ok {
            return false;
          }
        case NeedInput(question, _) =>
          needInput := Some(question);
        case _ =>
      }
      executionOrder := executionOrder + [templateId];
      return true;
    }

    method MergeAnswers(incoming: Answers) returns (ok: bool)
      modifies this`answers
      ensures ok <==> !TypeConflict(old(answers), incoming)
      ensures ok ==> answers == old(answers) + incoming
      ensures old(answers).Keys <= answers.Keys
    {
      ghost var before := answers;
      var todo := incoming.Keys;
      while todo != {}
        invariant todo <= incoming.Keys
        invariant answers == before + (incoming - todo)
        invariant forall key :: key in before && key in incoming && key !in todo ==> before[key].SameKind(incoming[key])
        decreases |todo|
      {
        var key :| key in todo;
        if key in answers && !answers[key].SameKind(incoming[key]) {
          assert key in before && answers[key] == before[key];
          return false;
        }
        MergeOne(before, incoming, todo, key);
        answers := answers[key := incoming[key]];
        todo := todo - {key};
      }
      assert incoming - {} == incoming;
      return true;
    }
  }

  lemma MergeOne(before: Answers, incoming: Answers, todo: set<string>, key: string)
    requires key in todo && key in incoming
    ensures (before + (incoming - todo))[key := incoming[key]] == before + (incoming - (todo - {key}))
  {
  }
}
