/** What src/components/tasks/TaskList.tsx shows for a given store state,
    filter and search query. */
module TaskListView {
  import opened Wrappers
  import opened Tasks
  import opened TaskQuery
  import Text
  import Seqs

  /** The alternatives the component renders. */
  datatype View =
    | Spinner                        // a request is in flight
    | ErrorPanel(message: string)    // the store holds an error; offers a retry
    | CreateFirst                    // no tasks at all: "Create Your First Task"
    | NoMatch                        // tasks exist but none passes the filter
    | Rows(shown: seq<Task>)         // one row per kept task, in list order

  /** The view for the store's `tasks`, `loading` and `error`. Loading wins
      over an error, an error over the list; of the two empty-list messages,
      the first-task prompt appears exactly when there are no tasks, and the
      no-match message exactly when tasks exist but none is kept. */
  function Render(tasks: seq<Task>, loading: bool, error: Option<string>, f: StatusFilter, query: string): (v: View)
    ensures loading <==> v == Spinner
    ensures v.ErrorPanel? <==> !loading && Text.Truthy(error)
    ensures v.ErrorPanel? ==> v.message == error.value
    ensures v == CreateFirst <==> !loading && !Text.Truthy(error) && |tasks| == 0
    ensures v == NoMatch <==>
      !loading && !Text.Truthy(error) && |tasks| > 0 && forall i :: 0 <= i < |tasks| ==> !Keeps(tasks[i], f, query)
    ensures v.Rows? ==> v.shown == FilteredTasks(tasks, f, query) && |v.shown| > 0
  {
    if loading then Spinner
    else if Text.Truthy(error) then ErrorPanel(error.value)
    else
      var shown := FilteredTasks(tasks, f, query);
      if |shown| == 0 then
        if |tasks| == 0 then CreateFirst else NoMatch
      else
        FilteredIsSubsequence(tasks, f, query);
        assert shown[0] in tasks;
        Rows(shown)
  }

  /** With `all` selected and nothing typed, a settled, error-free store
      shows every task, in order, or the first-task prompt when there is
      none. */
  lemma NoCriteriaShowsAll(tasks: seq<Task>, error: Option<string>)
    requires !Text.Truthy(error)
    ensures Render(tasks, false, error, All, "") == if |tasks| == 0 then CreateFirst else Rows(tasks)
  {
    NoCriteriaKeepsAll(tasks);
  }

  /** Scenario: of "Team Meeting" and "Gym", the query "meet" keeps only the
      meeting, whatever its case. */
  lemma SearchScenario(meeting: Task, gym: Task)
    requires meeting.title == "Team Meeting" && meeting.description == ""
    requires gym.title == "Gym" && gym.description == ""
    ensures FilteredTasks([meeting, gym], All, "meet") == [meeting]
  {
    assert Text.LowerString("meet") == "meet";
    assert Text.LowerString("Team Meeting") == "team meeting";
    assert Text.LowerString("Gym") == "gym";
    assert Text.InfixAt("team meeting", "meet", 5);
    assert !Text.Contains("", "meet");
    assert !Text.Contains("gym", "meet");
    assert Keeps(meeting, All, "meet") && !Keeps(gym, All, "meet");
    var keep := (t: Task) => Keeps(t, All, "meet");
    assert [meeting, gym][1..] == [gym];
    assert [gym][1..] == [];
    assert Seqs.Filter([gym], keep) == [];
  }
}
