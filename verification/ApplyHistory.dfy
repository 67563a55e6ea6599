/**
 * The observable history of one apply source, newest event last, and what can
 * be read off it about one attempt.
 */
module ApplyHistory {
  import opened Options
  import opened Patches
  import ApplyIntents

  datatype Event =
    | Opened(a: Patch)                     // intent row inserted, or a settled failure opened again
    | Entered(a: Patch, proc: nat)         // process `proc` moved the row from prepared to in_flight
    | Sent(a: Patch, proc: nat)            // process `proc` sent the PATCH
    | Landed(a: Patch, doc: Document)      // Paperless carried it out
    | Answered(a: Patch)                   // its success response was received
    | Observed(a: Patch, doc: Document)    // a GET read the document on behalf of the attempt
    | Edited(doc: Document)                // anybody else changed the document
    | Reported(a: Patch, proc: nat)        // process `proc` found or recorded a success state

  type History = seq<Event>

  /** What one attempt's history says, kept up to date event by event. */
  datatype Reading = Reading(
    unanswered: nat,        // PATCHes sent since a GET last saw the document without the body
    sends: nat,             // PATCHes sent since the row was last opened
    claimant: Option<nat>,  // who entered the attempt, while no PATCH was sent after that
    landed: bool,           // the PATCH sent last has been carried out
    witnessed: bool,        // since in_flight: a success response, or a GET that saw the body
    effected: bool,         // since in_flight the document carried the body at some moment
    undisturbed: bool)      // the body landed and no other write touched the document since

  const BLANK := Reading(0, 0, None, false, false, false, false)

  function Note(r: Reading, e: Event, a: Patch): Reading {
    if e.Edited? then r.(undisturbed := false)
    else if e.a != a then (if e.Landed? then r.(undisturbed := false) else r)
    else match e
      case Opened(_) => r.(sends := 0)
      case Entered(_, proc) => r.(claimant := Some(proc), landed := false, witnessed := false, effected := false)
      case Sent(_, _) => r.(unanswered := r.unanswered + 1, sends := r.sends + 1, claimant := None, landed := false)
      case Landed(_, doc) => r.(landed := true, undisturbed := true, effected := r.effected || Matches(doc, a))
      case Answered(_) => r.(witnessed := true)
      case Observed(_, doc) =>
        if Matches(doc, a) then r.(witnessed := true, effected := true) else r.(unanswered := 0)
      case Reported(_, _) => r
  }

  function Read(h: History, a: Patch): Reading {
    if h == [] then BLANK else Note(Read(h[..|h| - 1], a), h[|h| - 1], a)
  }

  lemma ReadPush(h: History, e: Event, a: Patch)
    ensures Read(h + [e], a) == Note(Read(h, a), e, a)
  {
    assert (h + [e])[..|h|] == h;
  }

  /** What the protocol promises of one event, given everything before it. */
  predicate EventOk(past: History, e: Event) {
    e.Edited? ||
    var r := Read(past, e.a);
    match e
    case Sent(_, proc) => r.claimant == Some(proc) && r.unanswered == 0 && r.sends <= ApplyIntents.MAX_TRANSIENT_RETRIES
    case Landed(a, doc) => Matches(doc, a) && !r.undisturbed
    case Answered(_) => r.landed
    case Reported(_, _) => r.witnessed && r.effected
    case _ => true
  }

  ghost predicate HistoryOk(h: History) {
    forall j :: 0 <= j < |h| ==> EventOk(h[..j], h[j])
  }

  lemma HistoryOkPush(h: History, e: Event)
    requires HistoryOk(h) && EventOk(h, e)
    ensures HistoryOk(h + [e])
  {
    var g := h + [e];
    forall j | 0 <= j < |g| ensures EventOk(g[..j], g[j]) {
      assert g[..j] == if j < |h| then h[..j] else h;
    }
  }
}
