/**
 * Phase declarations and how the two endpoints of a transition are derived
 * from them when the hook is first used.
 */
module Phases {
  import opened Options

  /** One declared endpoint of the transition. */
  datatype Phase = From(value: real) | To(value: real)

  /** Which endpoint is being looked for: `From` gives the start, `To` the end. */
  datatype Side = Start | End

  predicate Declares(p: Phase, side: Side) {
    match side
    case Start => p.From?
    case End => p.To?
  }

  /**
   * The value of the first declaration of `side`, if any: the `find_map`
   * scan over the phase array.
   */
  function FindEndpoint(phases: seq<Phase>, side: Side): (r: Option<real>)
    ensures r.None? <==> forall i :: 0 <= i < |phases| ==> !Declares(phases[i], side)
  {
    if phases == [] then None
    else if Declares(phases[0], side) then Some(phases[0].value)
    else
      var r := FindEndpoint(phases[1..], side);
      assert forall i :: 1 <= i < |phases| ==> phases[i] == phases[1..][i - 1];
      r
  }

  /** The endpoint, defaulting to 0 when `side` is never declared. */
  function Endpoint(phases: seq<Phase>, side: Side): real {
    FindEndpoint(phases, side).GetOr(0.0)
  }

  function StartValue(phases: seq<Phase>): real {
    Endpoint(phases, Start)
  }

  function EndValue(phases: seq<Phase>): real {
    Endpoint(phases, End)
  }

  /** The first declaration of a side decides its endpoint. */
  lemma {:induction false} FirstDeclarationWins(phases: seq<Phase>, side: Side, i: nat)
    requires i < |phases| && Declares(phases[i], side)
    requires forall j :: 0 <= j < i ==> !Declares(phases[j], side)
    ensures FindEndpoint(phases, side) == Some(phases[i].value)
    ensures Endpoint(phases, side) == phases[i].value
  {
    if i > 0 {
      assert !Declares(phases[0], side);
      FirstDeclarationWins(phases[1..], side, i - 1);
    }
  }

  /** Without any declaration of a side its endpoint is 0. */
  lemma NoDeclarationMeansZero(phases: seq<Phase>, side: Side)
    requires forall i :: 0 <= i < |phases| ==> !Declares(phases[i], side)
    ensures Endpoint(phases, side) == 0.0
  {
  }

  /** Declarations after the first one of a side are ignored. */
  lemma {:induction false} LaterDeclarationsIgnored(phases: seq<Phase>, more: seq<Phase>, side: Side)
    requires exists i :: 0 <= i < |phases| && Declares(phases[i], side)
    ensures Endpoint(phases + more, side) == Endpoint(phases, side)
  {
    if !Declares(phases[0], side) {
      assert phases == [phases[0]] + phases[1..];
      assert (phases + more)[1..] == phases[1..] + more;
      var i :| 0 <= i < |phases| && Declares(phases[i], side);
      assert phases[1..][i - 1] == phases[i];
      LaterDeclarationsIgnored(phases[1..], more, side);
    }
  }
}
