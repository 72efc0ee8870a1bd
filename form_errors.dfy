/** The error map the your-next-adventure pages build from a failed zod
    parse (`validateForm` in CreateTrip.jsx and Login.jsx): each issue is
    filed under the first element of its path, a later issue overwriting an
    earlier one on the same field, and issues without a path are dropped. */
module FormErrors {

  /** A zod issue: the first element of its path ("" when the path is
      empty, which is falsy) and its message. */
  datatype Issue = Issue(path: string, message: string)

  /** A single issue when `failing`, none otherwise. */
  function IssueIf(failing: bool, path: string, message: string): (r: seq<Issue>)
    ensures |r| <= 1 && (r == [] <==> !failing)
    ensures forall i :: 0 <= i < |r| ==> r[i] == Issue(path, message)
  {
    if failing then [Issue(path, message)] else []
  }

  /** No two issues name the same field. */
  ghost predicate PathsDistinct(issues: seq<Issue>) {
    forall i, j :: 0 <= i < j < |issues| ==> issues[i].path != issues[j].path
  }

  /** No issue names `path`. */
  ghost predicate Avoids(issues: seq<Issue>, path: string) {
    forall i :: 0 <= i < |issues| ==> issues[i].path != path
  }

  /** Appending at most one issue on a field not named yet keeps the fields
      distinct and avoids whatever both parts avoid. */
  lemma AppendOne(a: seq<Issue>, b: seq<Issue>, path: string)
    requires PathsDistinct(a) && Avoids(a, path)
    requires |b| <= 1 && forall i :: 0 <= i < |b| ==> b[i].path == path
    ensures PathsDistinct(a + b)
    ensures forall q :: Avoids(a, q) && q != path ==> Avoids(a + b, q)
  {
    forall q | Avoids(a, q) && q != path ensures Avoids(a + b, q) {
      forall i | 0 <= i < |a + b| ensures (a + b)[i].path != q {
        if i >= |a| {
          assert (a + b)[i] == b[i - |a|];
        }
      }
    }
    forall i, j | 0 <= i < j < |a + b| ensures (a + b)[i].path != (a + b)[j].path {
      if j >= |a| {
        assert (a + b)[j] == b[j - |a|] && (a + b)[i] == a[i];
      }
    }
  }

  /** The object the `forEach` fills. */
  function ErrorMapOf(issues: seq<Issue>): map<string, string> {
    if issues == [] then map[]
    else
      var init, last := issues[..|issues| - 1], issues[|issues| - 1];
      if last.path != "" then ErrorMapOf(init)[last.path := last.message] else ErrorMapOf(init)
  }

  /** A field has an entry exactly when some issue names it, and the entry
      is the message of the last issue that does. */
  lemma {:induction false} ErrorMapEntries(issues: seq<Issue>)
    ensures forall k :: k in ErrorMapOf(issues) <==> k != "" && exists i :: 0 <= i < |issues| && issues[i].path == k
    ensures forall i :: 0 <= i < |issues| && issues[i].path != "" &&
                        (forall j :: i < j < |issues| ==> issues[j].path != issues[i].path) ==>
              ErrorMapOf(issues)[issues[i].path] == issues[i].message
  {
    if issues != [] {
      var init, last := issues[..|issues| - 1], issues[|issues| - 1];
      ErrorMapEntries(init);
      assert forall i :: 0 <= i < |init| ==> init[i] == issues[i];
    }
  }

  /** The page's `errors` state. */
  class FieldErrors {
    var errors: map<string, string>

    constructor ()
      ensures errors == map[]
    {
      errors := map[];
    }

    /** `validateForm` after `safeParse`: `issues` are the parse's issues,
        none when it succeeds. */
    method Validate(issues: seq<Issue>) returns (ok: bool)
      modifies this
      ensures ok <==> issues == []
      ensures errors == ErrorMapOf(issues)
    {
      if issues == [] {
        errors := map[];
        return true;
      }
      var fieldErrors: map<string, string> := map[];
      var i := 0;
      while i < |issues|
        invariant 0 <= i <= |issues|
        invariant fieldErrors == ErrorMapOf(issues[..i])
      {
        assert issues[..i + 1][..i] == issues[..i];
        if issues[i].path != "" {
          fieldErrors := fieldErrors[issues[i].path := issues[i].message];
        }
        i := i + 1;
      }
      assert issues[..i] == issues;
      errors := fieldErrors;
      ok := false;
    }

    /** Clearing every error, as the mode toggle does. */
    method Clear()
      modifies this
      ensures errors == map[]
    {
      errors := map[];
    }
  }

  /** Issues on distinct, non-empty paths each keep their own message. */
  lemma DistinctPathsAllKept(issues: seq<Issue>)
    requires PathsDistinct(issues) && Avoids(issues, "")
    ensures forall i :: 0 <= i < |issues| ==>
              issues[i].path in ErrorMapOf(issues) && ErrorMapOf(issues)[issues[i].path] == issues[i].message
  {
    ErrorMapEntries(issues);
  }
}
