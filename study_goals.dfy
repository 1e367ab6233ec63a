/**
 * The list bookkeeping of the study-goals page (src/app/study-goals/page.tsx): the
 * catalogue of goals (`studyGoals`), the goals assigned to the signed-in person
 * (`userGoals`), and the list of goals still available to assign. The page's handlers
 * update its state after a call to the backend; the calls' outcomes are parameters.
 */
module StudyGoals {
  import opened Wrappers
  import opened Http
  import opened SeqFilter
  import AuthContext

  const LoadFailedMessage: string := "No se pudieron cargar los datos. Por favor, inténtalo de nuevo más tarde."
  const GoalCreatedMessage: string := "Objetivo de estudio creado correctamente"
  const CreateFailedMessage: string := "Error al crear el objetivo de estudio"
  const GoalAssignedMessage: string := "Objetivo de estudio agregado a tu perfil"
  const AssignFailedMessage: string := "Error al asignar el objetivo de estudio"
  const GoalRemovedMessage: string := "Objetivo de estudio eliminado de tu perfil"
  const RemoveFailedMessage: string := "Error al eliminar el objetivo de estudio"

  datatype Goal = Goal(id: string, name: string, description: string)

  /** The fields of the goal-creation form. */
  datatype GoalDraft = GoalDraft(name: string, description: string)

  /** The person's profile: its id and the ids of its assigned goals (an absent list is empty). */
  datatype Profile = Profile(id: string, studyGoals: seq<string>)

  /** Some goal in `goals` has this id. */
  predicate HasId(goals: seq<Goal>, id: string)
  {
    exists i :: 0 <= i < |goals| && goals[i].id == id
  }

  /** The goals of the catalogue whose id is among the profile's goal ids, in catalogue order. */
  function GoalsWithIds(goals: seq<Goal>, ids: seq<string>): (r: seq<Goal>)
    ensures forall g :: g in r <==> g in goals && g.id in ids
    ensures forall g :: multiset(r)[g] == if g.id in ids then multiset(goals)[g] else 0
    ensures IsSubsequence(r, goals)
  {
    var keep := (g: Goal) => g.id in ids;
    FilterMembers(goals, keep);
    FilterCounts(goals, keep);
    FilterIsSubsequence(goals, keep);
    Filter(goals, keep)
  }

  /** Every goal with this id removed; the others kept, in order. */
  function WithoutGoal(goals: seq<Goal>, id: string): (r: seq<Goal>)
    ensures forall g :: g in r <==> g in goals && g.id != id
    ensures forall g :: multiset(r)[g] == if g.id != id then multiset(goals)[g] else 0
    ensures IsSubsequence(r, goals)
    ensures !HasId(r, id)
  {
    var keep := (g: Goal) => g.id != id;
    FilterMembers(goals, keep);
    FilterCounts(goals, keep);
    FilterIsSubsequence(goals, keep);
    Filter(goals, keep)
  }

  /** The catalogue goals no assigned goal shares an id with, in catalogue order. */
  function AvailableGoals(studyGoals: seq<Goal>, userGoals: seq<Goal>): (r: seq<Goal>)
    ensures forall g :: g in r <==> g in studyGoals && !HasId(userGoals, g.id)
    ensures forall g :: multiset(r)[g] == if !HasId(userGoals, g.id) then multiset(studyGoals)[g] else 0
    ensures IsSubsequence(r, studyGoals)
  {
    var keep := (g: Goal) => !HasId(userGoals, g.id);
    FilterMembers(studyGoals, keep);
    FilterCounts(studyGoals, keep);
    FilterIsSubsequence(studyGoals, keep);
    Filter(studyGoals, keep)
  }

  /** The first goal with this id, if any. */
  function FindById(goals: seq<Goal>, id: string): (r: Option<Goal>)
    ensures r.None? <==> !HasId(goals, id)
    ensures r.Some? ==> exists i :: 0 <= i < |goals| && goals[i] == r.value && r.value.id == id &&
                                    forall j :: 0 <= j < i ==> goals[j].id != id
    decreases |goals|
  {
    if goals == [] then None
    else if goals[0].id == id then Some(goals[0])
    else
      var r := FindById(goals[1..], id);
      HasIdTail(goals, id);
      if r.Some? then FirstInTail(goals, id, r.value); r else r
  }

  /** Past a head that does not match, a match is one in the tail. */
  lemma HasIdTail(goals: seq<Goal>, id: string)
    requires goals != [] && goals[0].id != id
    ensures HasId(goals, id) <==> HasId(goals[1..], id)
  {
  }

  /** Past a head that does not match, the first match of the tail is the first match. */
  lemma FirstInTail(goals: seq<Goal>, id: string, x: Goal)
    requires goals != [] && goals[0].id != id
    requires exists i :: 0 <= i < |goals[1..]| && goals[1..][i] == x && x.id == id &&
                         forall j :: 0 <= j < i ==> goals[1..][j].id != id
    ensures exists i :: 0 <= i < |goals| && goals[i] == x && x.id == id &&
                        forall j :: 0 <= j < i ==> goals[j].id != id
  {
  }

  /** HasId of a sequence with one goal appended. */
  lemma HasIdAppend(goals: seq<Goal>, g: Goal, id: string)
    ensures HasId(goals + [g], id) <==> HasId(goals, id) || g.id == id
  {
    if HasId(goals + [g], id) {
      var i :| 0 <= i < |goals + [g]| && (goals + [g])[i].id == id;
      if i < |goals| { assert goals[i].id == id; }
    }
    if HasId(goals, id) {
      var i :| 0 <= i < |goals| && goals[i].id == id;
      assert (goals + [g])[i].id == id;
    }
    if g.id == id {
      assert (goals + [g])[|goals|].id == id;
    }
  }

  /** Assigning a goal takes every catalogue goal with its id off the available list, and
      nothing else. */
  lemma AssignHidesFromAvailable(studyGoals: seq<Goal>, userGoals: seq<Goal>, goal: Goal)
    ensures AvailableGoals(studyGoals, userGoals + [goal]) ==
            WithoutGoal(AvailableGoals(studyGoals, userGoals), goal.id)
  {
    forall i | 0 <= i < |studyGoals|
      ensures !HasId(userGoals + [goal], studyGoals[i].id) ==
              (!HasId(userGoals, studyGoals[i].id) && studyGoals[i].id != goal.id)
    {
      HasIdAppend(userGoals, goal, studyGoals[i].id);
    }
    FilterTwice(studyGoals, (g: Goal) => !HasId(userGoals, g.id), (g: Goal) => g.id != goal.id,
                (g: Goal) => !HasId(userGoals + [goal], g.id));
  }

  /** Removing a goal that was just assigned, and was not assigned before, restores the
      assigned list. */
  lemma RemoveUndoesAssign(userGoals: seq<Goal>, g: Goal)
    requires !HasId(userGoals, g.id)
    ensures WithoutGoal(userGoals + [g], g.id) == userGoals
  {
    var keep := (x: Goal) => x.id != g.id;
    FilterAppend(userGoals, [g], keep);
    forall i | 0 <= i < |userGoals| ensures keep(userGoals[i]) {
      if !keep(userGoals[i]) { assert HasId(userGoals, g.id); }
    }
    FilterKeepsAll(userGoals, keep);
    assert Filter([g], keep) == [];
  }

  /** Right after loading, the available list is the catalogue goals the profile does not
      list, whatever the catalogue holds. */
  lemma AvailableAfterLoad(allGoals: seq<Goal>, ids: seq<string>)
    ensures AvailableGoals(allGoals, GoalsWithIds(allGoals, ids)) == Filter(allGoals, (g: Goal) => g.id !in ids)
  {
    var assignedGoals := GoalsWithIds(allGoals, ids);
    forall i | 0 <= i < |allGoals|
      ensures !HasId(assignedGoals, allGoals[i].id) == (allGoals[i].id !in ids)
    {
      var g := allGoals[i];
      if g.id in ids {
        assert g in assignedGoals;
        var k :| 0 <= k < |assignedGoals| && assignedGoals[k] == g;
        assert HasId(assignedGoals, g.id);
      }
      if HasId(assignedGoals, g.id) {
        var k :| 0 <= k < |assignedGoals| && assignedGoals[k].id == g.id;
        assert assignedGoals[k] in assignedGoals;
      }
    }
    FilterAgree(allGoals, (g: Goal) => !HasId(assignedGoals, g.id), (g: Goal) => g.id !in ids);
  }

  /** The state of the study-goals page. */
  class StudyGoalsPage {
    var profile: Option<Profile>
    var studyGoals: seq<Goal>
    var userGoals: seq<Goal>
    var loading: bool
    var error: Option<string>
    var success: Option<string>
    var isAddModalOpen: bool
    var processingGoalId: Option<string>

    /** The state the page is mounted with. */
    constructor ()
      ensures profile == None && studyGoals == [] && userGoals == [] && loading
      ensures error == None && success == None && !isAddModalOpen && processingGoalId == None
    {
      profile, studyGoals, userGoals, loading := None, [], [], true;
      error, success, isAddModalOpen, processingGoalId := None, None, false, None;
    }

    /** The "available goals" list the page shows. */
    function Available(): (r: seq<Goal>)
      reads this
      ensures forall g :: g in r <==> g in studyGoals && !HasId(userGoals, g.id)
      ensures forall g :: multiset(r)[g] == if !HasId(userGoals, g.id) then multiset(studyGoals)[g] else 0
      ensures IsSubsequence(r, studyGoals)
    {
      AvailableGoals(studyGoals, userGoals)
    }

    /**
     * `fetchData`, for the signed-in `user`: nothing at all without a user id. Otherwise
     * the catalogue is loaded into `studyGoals`, then the profile is fetched and, when it
     * lists goals, `userGoals` becomes the catalogue goals it lists; a failure of either
     * call sets the load error and stops there. Loading ends false once past the guard.
     */
    method FetchData(user: Option<AuthContext.User>, allGoals: HttpResult<seq<Goal>>,
                     fetchProfile: string -> HttpResult<Profile>)
      modifies this
      ensures !(user.Some? && user.value.id != "") ==>
        && profile == old(profile) && studyGoals == old(studyGoals) && userGoals == old(userGoals)
        && loading == old(loading) && error == old(error)
      ensures success == old(success) && isAddModalOpen == old(isAddModalOpen)
      ensures processingGoalId == old(processingGoalId)
      ensures user.Some? && user.value.id != "" ==> !loading
      ensures user.Some? && user.value.id != "" && allGoals.Fail? ==>
        && error == Some(LoadFailedMessage)
        && studyGoals == old(studyGoals) && profile == old(profile) && userGoals == old(userGoals)
      ensures user.Some? && user.value.id != "" && allGoals.Ok? ==>
        && studyGoals == allGoals.value
        && (fetchProfile(user.value.id).Fail? ==>
              error == Some(LoadFailedMessage) && profile == old(profile) && userGoals == old(userGoals))
        && (fetchProfile(user.value.id).Ok? ==>
              var p := fetchProfile(user.value.id).value;
              && profile == Some(p) && error == old(error)
              && userGoals == (if |p.studyGoals| > 0 then GoalsWithIds(allGoals.value, p.studyGoals)
                               else old(userGoals)))
    {
      if user.None? || user.value.id == "" {
        return;
      }
      match allGoals {
        case Fail(_) =>
          error := Some(LoadFailedMessage);
        case Ok(goals) =>
          studyGoals := goals;
          match fetchProfile(user.value.id) {
            case Fail(_) =>
              error := Some(LoadFailedMessage);
            case Ok(p) =>
              profile := Some(p);
              if |p.studyGoals| > 0 {
                userGoals := GoalsWithIds(goals, p.studyGoals);
              }
          }
      }
      loading := false;
    }

    /**
     * `handleAddGoal(data)`: error and success cleared; on success the created goal is
     * appended to the catalogue, the modal closes and the success message is shown; on
     * failure the catalogue is unchanged and the server's message (or the default) shown.
     */
    method HandleAddGoal(data: GoalDraft, create: GoalDraft -> HttpResult<Goal>)
      modifies this
      ensures userGoals == old(userGoals) && profile == old(profile) && loading == old(loading)
      ensures processingGoalId == old(processingGoalId)
      ensures create(data).Ok? ==>
        && studyGoals == old(studyGoals) + [create(data).value]
        && !isAddModalOpen && success == Some(GoalCreatedMessage) && error == None
      ensures create(data).Fail? ==>
        && studyGoals == old(studyGoals) && isAddModalOpen == old(isAddModalOpen)
        && success == None && error == Some(ServerMessageOr(create(data).failure, CreateFailedMessage))
    {
      error := None;
      success := None;
      match create(data) {
        case Ok(goal) =>
          studyGoals := studyGoals + [goal];
          isAddModalOpen := false;
          success := Some(GoalCreatedMessage);
        case Fail(f) =>
          error := Some(ServerMessageOr(f, CreateFailedMessage));
      }
    }

    /**
     * `handleAssignGoal(goalId)`: nothing without a profile. Otherwise the goal is added to
     * the profile on the server; on success the profile is replaced by the answer and the
     * first catalogue goal with that id (if any) is appended to `userGoals`; on failure the
     * server's message (or the default) is shown. No goal is in progress at the end.
     */
    method HandleAssignGoal(goalId: string, addGoal: (string, string) -> HttpResult<Profile>)
      modifies this
      ensures old(profile).None? ==>
        && profile == old(profile) && userGoals == old(userGoals) && error == old(error)
        && success == old(success) && processingGoalId == old(processingGoalId)
      ensures studyGoals == old(studyGoals) && loading == old(loading) && isAddModalOpen == old(isAddModalOpen)
      ensures old(profile).Some? ==> processingGoalId == None
      ensures old(profile).Some? && addGoal(old(profile).value.id, goalId).Ok? ==>
        && profile == Some(addGoal(old(profile).value.id, goalId).value)
        && userGoals == (match FindById(studyGoals, goalId)
                         case Some(g) => old(userGoals) + [g]
                         case None => old(userGoals))
        && success == Some(GoalAssignedMessage) && error == None
      ensures old(profile).Some? && addGoal(old(profile).value.id, goalId).Fail? ==>
        && profile == old(profile) && userGoals == old(userGoals) && success == None
        && error == Some(ServerMessageOr(addGoal(old(profile).value.id, goalId).failure, AssignFailedMessage))
    {
      if profile.None? {
        return;
      }
      processingGoalId := Some(goalId);
      error := None;
      success := None;
      match addGoal(profile.value.id, goalId) {
        case Ok(updated) =>
          profile := Some(updated);
          var goalToAdd := FindById(studyGoals, goalId);
          if goalToAdd.Some? {
            userGoals := userGoals + [goalToAdd.value];
          }
          success := Some(GoalAssignedMessage);
        case Fail(f) =>
          error := Some(ServerMessageOr(f, AssignFailedMessage));
      }
      processingGoalId := None;
    }

    /**
     * `handleRemoveGoal(goalId)`: nothing without a profile. Otherwise the goal is removed
     * from the profile on the server; on success every goal with that id leaves `userGoals`
     * (the rest keep their order); on failure the server's message (or the default) is
     * shown. No goal is in progress at the end.
     */
    method HandleRemoveGoal(goalId: string, removeGoal: (string, string) -> HttpResult<Profile>)
      modifies this
      ensures old(profile).None? ==>
        && profile == old(profile) && userGoals == old(userGoals) && error == old(error)
        && success == old(success) && processingGoalId == old(processingGoalId)
      ensures studyGoals == old(studyGoals) && loading == old(loading) && isAddModalOpen == old(isAddModalOpen)
      ensures old(profile).Some? ==> processingGoalId == None
      ensures old(profile).Some? && removeGoal(old(profile).value.id, goalId).Ok? ==>
        && profile == Some(removeGoal(old(profile).value.id, goalId).value)
        && userGoals == WithoutGoal(old(userGoals), goalId)
        && success == Some(GoalRemovedMessage) && error == None
      ensures old(profile).Some? && removeGoal(old(profile).value.id, goalId).Fail? ==>
        && profile == old(profile) && userGoals == old(userGoals) && success == None
        && error == Some(ServerMessageOr(removeGoal(old(profile).value.id, goalId).failure, RemoveFailedMessage))
    {
      if profile.None? {
        return;
      }
      processingGoalId := Some(goalId);
      error := None;
      success := None;
      match removeGoal(profile.value.id, goalId) {
        case Ok(updated) =>
          profile := Some(updated);
          userGoals := WithoutGoal(userGoals, goalId);
          success := Some(GoalRemovedMessage);
        case Fail(f) =>
          error := Some(ServerMessageOr(f, RemoveFailedMessage));
      }
      processingGoalId := None;
    }
  }

  // ---------------------------------------------------------------------------------
  // The page from mount.

  /** Without a signed-in user id the page never leaves its loading state and shows no goals. */
  method NoUserKeepsLoading(allGoals: HttpResult<seq<Goal>>, fetchProfile: string -> HttpResult<Profile>)
    returns (page: StudyGoalsPage)
    ensures page.loading && page.studyGoals == [] && page.userGoals == [] && page.error == None
  {
    page := new StudyGoalsPage();
    page.FetchData(None, allGoals, fetchProfile);
  }

  /** Load, then assign a goal the profile did not list: the goal is assigned and gone from
      the available list; removing it again restores the assigned list. */
  method AssignThenRemove(user: AuthContext.User, catalogue: seq<Goal>, p: Profile, g: Goal,
                          server: (string, string) -> HttpResult<Profile>)
    returns (assignedGoals: seq<Goal>, availableAfterAssign: seq<Goal>, restored: seq<Goal>, loaded: seq<Goal>)
    requires user.id != "" && |p.studyGoals| > 0 && g.id !in p.studyGoals
    requires g in catalogue && forall i :: 0 <= i < |catalogue| && catalogue[i].id == g.id ==> catalogue[i] == g
    requires server(p.id, g.id).Ok? && server(server(p.id, g.id).value.id, g.id).Ok?
    ensures loaded == GoalsWithIds(catalogue, p.studyGoals)
    ensures assignedGoals == loaded + [g]
    ensures g !in availableAfterAssign
    ensures restored == loaded
  {
    var page := new StudyGoalsPage();
    page.FetchData(Some(user), Ok(catalogue), _ => Ok(p));
    loaded := page.userGoals;
    assert !HasId(loaded, g.id);
    assert HasId(catalogue, g.id) by {
      var i :| 0 <= i < |catalogue| && catalogue[i] == g;
    }
    page.HandleAssignGoal(g.id, server);
    assignedGoals := page.userGoals;
    availableAfterAssign := page.Available();
    assert HasId(assignedGoals, g.id) by {
      assert assignedGoals[|assignedGoals| - 1] == g;
    }
    page.HandleRemoveGoal(g.id, server);
    restored := page.userGoals;
    RemoveUndoesAssign(loaded, g);
  }
}
