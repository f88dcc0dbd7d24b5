/**
 * Route registration and the per-request step sequence (index.js).
 *
 * The router is reduced to its table of registered patterns; route
 * resolution, JSON decoding and the handler itself are outside the model,
 * and each step is represented only by how it completes.
 */
module Swole {
  import opened Outcomes
  import PathTemplate
  import Validate

  /** An operation object of the document: its parameters and its `x-handler`. */
  datatype Operation = Operation(parameters: seq<Validate.Parameter>, handler: string)

  /** A path item: the operations of one path, keyed by HTTP method. */
  type PathItem = map<string, Operation>

  /** The router's table: one entry per registered pattern, holding the path's operations by method. */
  class RouteTable {
    var routes: map<string, PathItem>
  }

  /** The table that registering `paths`, in document order, adds: later entries replace earlier ones on the same pattern. */
  function Registered(paths: seq<(string, PathItem)>): map<string, PathItem>
    decreases |paths|
  {
    if paths == [] then map[]
    else
      var last := paths[|paths| - 1];
      Registered(paths[..|paths| - 1])[PathTemplate.ToColon(last.0) := last.1]
  }

  /**
   * `createRoutes`: every entry of the document's `paths` is registered under
   * the router form of its template.
   */
  method CreateRoutes(router: RouteTable, paths: seq<(string, PathItem)>)
    modifies router
    ensures router.routes == old(router.routes) + Registered(paths)
  {
    var i := 0;
    while i < |paths|
      invariant 0 <= i <= |paths|
      invariant router.routes == old(router.routes) + Registered(paths[..i])
    {
      var (path, item) := paths[i];
      RegisterStep(old(router.routes), paths, i);
      router.routes := router.routes[PathTemplate.ToColon(path) := item];
      i := i + 1;
    }
    assert paths[..i] == paths;
  }

  /** Registering one more path updates the table at that path's router form. */
  lemma RegisterStep(table: map<string, PathItem>, paths: seq<(string, PathItem)>, i: nat)
    requires i < |paths|
    ensures table + Registered(paths[..i + 1]) == (table + Registered(paths[..i]))[PathTemplate.ToColon(paths[i].0) := paths[i].1]
  {
    assert paths[..i + 1][..i] == paths[..i];
  }

  /** Exactly the router forms of the document's paths are registered. */
  lemma {:induction false} RegisteredPatterns(paths: seq<(string, PathItem)>, pattern: string)
    ensures pattern in Registered(paths) <==> exists i :: 0 <= i < |paths| && PathTemplate.ToColon(paths[i].0) == pattern
    decreases |paths|
  {
    if paths != [] {
      var init := paths[..|paths| - 1];
      RegisteredPatterns(init, pattern);
      if exists i :: 0 <= i < |init| && PathTemplate.ToColon(init[i].0) == pattern {
        var i :| 0 <= i < |init| && PathTemplate.ToColon(init[i].0) == pattern;
        assert paths[i] == init[i];
      }
      if exists i :: 0 <= i < |paths| && PathTemplate.ToColon(paths[i].0) == pattern {
        var i :| 0 <= i < |paths| && PathTemplate.ToColon(paths[i].0) == pattern;
        if i < |paths| - 1 {
          assert init[i] == paths[i];
        }
      }
    }
  }

  /** A path whose router form no later path shares keeps its own operations in the table. */
  lemma {:induction false} RegisteredOperations(paths: seq<(string, PathItem)>, i: nat)
    requires i < |paths|
    requires forall j :: i < j < |paths| ==> PathTemplate.ToColon(paths[j].0) != PathTemplate.ToColon(paths[i].0)
    ensures PathTemplate.ToColon(paths[i].0) in Registered(paths)
    ensures Registered(paths)[PathTemplate.ToColon(paths[i].0)] == paths[i].1
    decreases |paths|
  {
    if i < |paths| - 1 {
      var init := paths[..|paths| - 1];
      assert init[i] == paths[i];
      RegisteredOperations(init, i);
    }
  }

  /** The steps `handle` hands to `serial`, in the order it lists them. */
  datatype Step = ValidateParams | DecodeJson | ValidateBody | InvokeHandler

  const Pipeline: seq<Step> := [ValidateParams, DecodeJson, ValidateBody, InvokeHandler]

  /**
   * `handle`: runs the steps in order until one does not succeed. The steps
   * that ran are a prefix of the pipeline whose every step but the last
   * succeeded, and the completion callback gets what the last one gave: an
   * error, success after the handler, or nothing when a step never called
   * back.
   */
  method Handle(outcome: Step -> Completion) returns (ran: seq<Step>, c: Completion)
    ensures 1 <= |ran| <= |Pipeline| && ran == Pipeline[..|ran|]
    ensures forall k :: 0 <= k < |ran| - 1 ==> outcome(ran[k]) == Done
    ensures c == outcome(ran[|ran| - 1])
    ensures c == Done <==> forall k :: 0 <= k < |Pipeline| ==> outcome(Pipeline[k]) == Done
    ensures InvokeHandler in ran <==>
              outcome(ValidateParams) == Done && outcome(DecodeJson) == Done && outcome(ValidateBody) == Done
  {
    assert Pipeline[0] == ValidateParams && Pipeline[1] == DecodeJson && Pipeline[2] == ValidateBody;
    assert Pipeline[3] == InvokeHandler;
    ran := [];
    c := Done;
    var i := 0;
    while i < |Pipeline|
      invariant 0 <= i <= |Pipeline|
      invariant ran == Pipeline[..i]
      invariant forall k :: 0 <= k < i ==> outcome(Pipeline[k]) == Done
      invariant i > 0 ==> c == outcome(ran[i - 1])
    {
      var step := Pipeline[i];
      ran := ran + [step];
      c := outcome(step);
      if c != Done {
        assert InvokeHandler in ran <==> i == 3;
        return;
      }
      i := i + 1;
    }
    assert InvokeHandler in ran;
  }
}
