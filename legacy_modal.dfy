/**
 * The earlier optimisation modal the header and pricing section open: an
 * email field and a dating-goal radio pair, a submit that only flips to the
 * thank-you view, and a close that resets the form 300 ms later (the timer
 * firing is an explicit event).
 */
module LegacyOptimizeModal {

  datatype Goal = Relationship | Casual

  /** The radio values. */
  function GoalName(g: Goal): (name: string)
    ensures name == "relationship" || name == "casual"
    ensures name == "relationship" <==> g == Relationship
  {
    match g
    case Relationship => "relationship"
    case Casual => "casual"
  }

  /** What the dialog panel shows. */
  datatype View = FormView(email: string, goal: Goal) | ThankYouView

  /** The panel renders the thank-you view exactly when submitted, and otherwise the form with the current values. */
  function ViewOf(email: string, goal: Goal, submitted: bool): (v: View)
    ensures v == ThankYouView <==> submitted
    ensures !submitted ==> v == FormView(email, goal)
  {
    if submitted then ThankYouView else FormView(email, goal)
  }

  class Modal {
    /** The parent's `isModalOpen`, passed in as `open`. */
    var open: bool
    var email: string
    var goal: Goal
    var submitted: bool
    /** Reset timers scheduled by closes and not yet fired. */
    var pendingResets: nat

    /** The initial state: empty email, goal "relationship", not submitted. */
    constructor (open: bool)
      ensures this.open == open && email == [] && goal == Relationship && !submitted && pendingResets == 0
    {
      this.open := open;
      email := [];
      goal := Relationship;
      submitted := false;
      pendingResets := 0;
    }

    function View(): View
      reads this
    {
      ViewOf(email, goal, submitted)
    }

    method Open()
      modifies this
      ensures open
      ensures email == old(email) && goal == old(goal) && submitted == old(submitted)
      ensures pendingResets == old(pendingResets)
    {
      open := true;
    }

    method EditEmail(v: string)
      modifies this
      ensures email == v
      ensures open == old(open) && goal == old(goal) && submitted == old(submitted)
      ensures pendingResets == old(pendingResets)
    {
      email := v;
    }

    /** Choosing a radio sets exactly that goal. */
    method SelectGoal(g: Goal)
      modifies this
      ensures goal == g
      ensures open == old(open) && email == old(email) && submitted == old(submitted)
      ensures pendingResets == old(pendingResets)
    {
      goal := g;
    }

    /** `handleSubmit`: no validation and no request; the form is replaced by the thank-you view. */
    method Submit()
      modifies this
      ensures submitted && View() == ThankYouView
      ensures open == old(open) && email == old(email) && goal == old(goal)
      ensures pendingResets == old(pendingResets)
    {
      submitted := true;
    }

    /** `handleClose`: the parent closes the modal and a reset is scheduled. */
    method Close()
      modifies this
      ensures !open && pendingResets == old(pendingResets) + 1
      ensures email == old(email) && goal == old(goal) && submitted == old(submitted)
    {
      open := false;
      pendingResets := pendingResets + 1;
    }

    /** The reset timer firing: the initial form values again, and the form view. */
    method FireResetTimer()
      requires pendingResets > 0
      modifies this
      ensures email == [] && goal == Relationship && !submitted
      ensures View() == FormView([], Relationship)
      ensures open == old(open) && pendingResets == old(pendingResets) - 1
    {
      email := [];
      goal := Relationship;
      submitted := false;
      pendingResets := pendingResets - 1;
    }
  }
}
