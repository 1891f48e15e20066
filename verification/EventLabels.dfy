/** The two labels a transition's event can carry, and what the first of them also covers. */
module EventLabels {
  import opened Common
  import opened Tables
  import opened Workflow
  import SilentAlert

  /** Completed or waived: what the code takes a transition out of as a reopening. */
  predicate IsClosed(s: Status) {
    s.Completed? || s.Waived?
  }

  /** A transition appends one event, labelled as a reopening exactly when it leaves closed work. */
  lemma LabelOfTransition(db: Database, id: Id, to: Status, expected: nat, actor: Actor, now: Time)
    requires Transition(db, id, to, expected, actor, now).Success?
    ensures id in db.obligations
    ensures var log := Transition(db, id, to, expected, actor, now).value.events;
            && |log| == |db.events| + 1 && log[..|db.events|] == db.events
            && log[|db.events|].obligation == id && log[|db.events|].to == Some(to)
            && (log[|db.events|].change.Reopened? <==> IsClosed(db.obligations[id].status))
  {
    hide ValidateCompletion;
  }

  /** The last event calls itself a reopening and leads to `superseded`. */
  predicate ReopenedToSuperseded(log: seq<ObligationEvent>) {
    && log != []
    && log[|log| - 1].change.Reopened?
    && log[|log| - 1].to == Some(Superseded)
  }

  /** A reopening that ends the work for good is logged exactly when closed work is superseded. */
  lemma SupersededAsReopened(db: Database, id: Id, to: Status, expected: nat, actor: Actor, now: Time)
    requires Transition(db, id, to, expected, actor, now).Success?
    ensures id in db.obligations
    ensures var log := Transition(db, id, to, expected, actor, now).value.events;
            ReopenedToSuperseded(log) <==> to.Superseded? && IsClosed(db.obligations[id].status)
  {
    hide Transition;
    LabelOfTransition(db, id, to, expected, actor, now);
  }

  /** Waived work that is superseded: a reachable state, one request, and the label. */
  lemma SupersededExample()
    ensures var r := Transition(SilentAlert.Silenced, 0, Superseded, 2, SilentAlert.ANN, 0);
            && r.Success?
            && r.value.obligations[0].status.Superseded?
            && ReopenedToSuperseded(r.value.events)
  {
  }
}
