/**
  The request models: `EventTagRequest` with its title validator and organizer merge, and the
  uniqueness validator of `BatchTagRequest`. pydantic models are mutable objects, so a request is a
  class; `Fields()` is a snapshot of all its fields as a value.
*/
module Requests {
  import opened Wrappers
  import opened Text
  import opened Seqs

  datatype RequestFields = RequestFields(
    arrangementNummer: Option<string>,
    arrangementTitel: string,
    arrangoer: Option<string>,          // `arrangør`
    arrangor: Option<string>,           // its ASCII spelling
    arrangementUndertype: Option<string>,
    ncTeaser: Option<string>,
    ncBeskrivelse: Option<string>,
    beskrivelseHtmlFri: Option<string>,
    includeReasoning: bool,
    requireConfidence: bool)

  const TitleMinLength := 1
  const TitleMaxLength := 500
  const TitleConstraintMessage := "1 validation error for EventTagRequest: arrangement_titel"
  const NotUniqueMessage := "ArrangementNummer must be unique"

  /** The `arrangement_titel` field validator: a non-empty title is stripped, an empty one kept. */
  function StripWhitespace(v: string): (r: string)
    ensures EdgeFree(r)
    ensures LeadCount(v) + |r| <= |v| && r == v[LeadCount(v)..LeadCount(v) + |r|]
    ensures AllSpace(v[..LeadCount(v)]) && AllSpace(v[LeadCount(v) + |r|..])
  {
    if v != "" then Strip(v) else v
  }

  /** Applying the validator to its own result changes nothing. */
  lemma StripWhitespaceIdempotent(v: string)
    ensures StripWhitespace(StripWhitespace(v)) == StripWhitespace(v)
  {
    StripKeepsEdgeFree(StripWhitespace(v));
  }

  /** The value `merge_organizer_fields` leaves in `arrangør`. */
  function MergedOrganizer(arrangoer: Option<string>, arrangor: Option<string>): Option<string> {
    if !Truthy(arrangoer) && Truthy(arrangor) then arrangor else arrangoer
  }

  /**
    The merge overwrites `arrangør` only when it is falsy and `arrangor` is truthy; afterwards
    `arrangør` is truthy iff one of the two was, and merging again changes nothing.
  */
  lemma MergedOrganizerFacts(arrangoer: Option<string>, arrangor: Option<string>)
    ensures Truthy(arrangoer) ==> MergedOrganizer(arrangoer, arrangor) == arrangoer
    ensures !Truthy(arrangor) ==> MergedOrganizer(arrangoer, arrangor) == arrangoer
    ensures !Truthy(arrangoer) && Truthy(arrangor) ==> MergedOrganizer(arrangoer, arrangor) == arrangor
    ensures Truthy(MergedOrganizer(arrangoer, arrangor)) <==> Truthy(arrangoer) || Truthy(arrangor)
    ensures MergedOrganizer(MergedOrganizer(arrangoer, arrangor), arrangor) == MergedOrganizer(arrangoer, arrangor)
  {
  }

  class EventTagRequest {
    var arrangementNummer: Option<string>
    var arrangementTitel: string
    var arrangoer: Option<string>
    var arrangor: Option<string>
    var arrangementUndertype: Option<string>
    var ncTeaser: Option<string>
    var ncBeskrivelse: Option<string>
    var beskrivelseHtmlFri: Option<string>
    var includeReasoning: bool
    var requireConfidence: bool

    function Fields(): RequestFields
      reads this
    {
      RequestFields(arrangementNummer, arrangementTitel, arrangoer, arrangor, arrangementUndertype,
                    ncTeaser, ncBeskrivelse, beskrivelseHtmlFri, includeReasoning, requireConfidence)
    }

    /** An object holding exactly the given field values, with no validation (what `copy()` produces). */
    constructor (f: RequestFields)
      ensures Fields() == f
    {
      arrangementNummer := f.arrangementNummer;
      arrangementTitel := f.arrangementTitel;
      arrangoer := f.arrangoer;
      arrangor := f.arrangor;
      arrangementUndertype := f.arrangementUndertype;
      ncTeaser := f.ncTeaser;
      ncBeskrivelse := f.ncBeskrivelse;
      beskrivelseHtmlFri := f.beskrivelseHtmlFri;
      includeReasoning := f.includeReasoning;
      requireConfidence := f.requireConfidence;
    }

    /** `merge_organizer_fields`: fill `arrangør` from `arrangor`; no other field changes. */
    method MergeOrganizerFields()
      modifies this
      ensures Fields() == old(Fields()).(arrangoer := MergedOrganizer(old(arrangoer), old(arrangor)))
    {
      if !Truthy(arrangoer) && Truthy(arrangor) {
        arrangoer := arrangor;
      }
    }

    /** Assigns the four free-text fields; no other field changes. */
    method SetTextFields(title: string, teaser: Option<string>, beskrivelse: Option<string>, htmlFri: Option<string>)
      modifies this
      ensures Fields() == old(Fields()).(arrangementTitel := title, ncTeaser := teaser,
                                         ncBeskrivelse := beskrivelse, beskrivelseHtmlFri := htmlFri)
    {
      arrangementTitel, ncTeaser, ncBeskrivelse, beskrivelseHtmlFri := title, teaser, beskrivelse, htmlFri;
    }

    /** `copy()`: a new object with the same field values. */
    method Copy() returns (r: EventTagRequest)
      ensures fresh(r) && r.Fields() == Fields()
    {
      r := new EventTagRequest(Fields());
    }

    /**
      `EventTagRequest(...)`: the title's length constraint (checked on the raw value), then the
      title validator, then the organizer merge. A title outside 1..500 characters raises.
    */
    static method Create(f: RequestFields) returns (r: Result<EventTagRequest>)
      ensures r.Err? <==> !(TitleMinLength <= |f.arrangementTitel| <= TitleMaxLength)
      ensures r.Err? ==> r.error == TitleConstraintMessage
      ensures r.Ok? ==> fresh(r.value)
      ensures r.Ok? ==> r.value.Fields() == f.(arrangementTitel := StripWhitespace(f.arrangementTitel),
                                               arrangoer := MergedOrganizer(f.arrangoer, f.arrangor))
    {
      if !(TitleMinLength <= |f.arrangementTitel| <= TitleMaxLength) {
        return Err(TitleConstraintMessage);
      }
      var e := new EventTagRequest(f.(arrangementTitel := StripWhitespace(f.arrangementTitel)));
      e.MergeOrganizerFields();
      r := Ok(e);
    }
  }

  /** The non-empty arrangement numbers of the events, in order. */
  function ArrangementNumbers(events: seq<EventTagRequest>): (nums: seq<string>)
    reads events
    decreases |events|
  {
    if events == [] then []
    else
      var e := events[|events| - 1];
      ArrangementNumbers(events[..|events| - 1])
        + (if Truthy(e.arrangementNummer) then [e.arrangementNummer.value] else [])
  }

  /** Event `i` carries the non-empty number `x`. */
  predicate NumberAt(events: seq<EventTagRequest>, i: int, x: string)
    reads events
    requires 0 <= i < |events|
  {
    events[i].arrangementNummer == Some(x) && x != ""
  }

  /** The collected numbers are exactly the non-empty numbers of the events. */
  lemma {:induction false} NumbersMembership(events: seq<EventTagRequest>, x: string)
    ensures x in ArrangementNumbers(events) <==> exists i :: 0 <= i < |events| && NumberAt(events, i, x)
    decreases |events|
  {
    if events != [] {
      var init := events[..|events| - 1];
      NumbersMembership(init, x);
      var e := events[|events| - 1];
      var tail := if Truthy(e.arrangementNummer) then [e.arrangementNummer.value] else [];
      assert ArrangementNumbers(events) == ArrangementNumbers(init) + tail;
      assert x in tail <==> NumberAt(events, |events| - 1, x);
      assert forall i :: 0 <= i < |init| ==> init[i] == events[i];
      if i :| 0 <= i < |events| && NumberAt(events, i, x) {
        if i < |init| {
          assert NumberAt(init, i, x);
        }
      }
      if i :| 0 <= i < |init| && NumberAt(init, i, x) {
        assert NumberAt(events, i, x);
      }
    }
  }

  /** Two different events carry the same non-empty number. */
  predicate HasRepeatedNumber(events: seq<EventTagRequest>)
    reads events
  {
    exists i, j :: 0 <= i < j < |events| && Truthy(events[i].arrangementNummer)
                   && events[i].arrangementNummer == events[j].arrangementNummer
  }

  /** `validate_events_unique`: the set-size comparison fails exactly when a non-empty number repeats. */
  function ValidateEventsUnique(events: seq<EventTagRequest>): (r: Result<seq<EventTagRequest>>)
    reads events
    ensures r.Err? <==> HasRepeatedNumber(events)
    ensures r.Err? ==> r.error == NotUniqueMessage
    ensures r.Ok? ==> r.value == events
  {
    var nums := ArrangementNumbers(events);
    DistinctIffSetSize(nums);
    NumbersDistinct(events);
    if |nums| != |ToSet(nums)| then Err(NotUniqueMessage) else Ok(events)
  }

  /** A repeat among the events is a repeat among all but the last, or the last one repeating an earlier number. */
  lemma RepeatSnoc(events: seq<EventTagRequest>)
    requires events != []
    ensures var init, e := events[..|events| - 1], events[|events| - 1];
      HasRepeatedNumber(events) <==>
        HasRepeatedNumber(init)
        || (Truthy(e.arrangementNummer) && exists i :: 0 <= i < |init| && NumberAt(init, i, e.arrangementNummer.value))
  {
    var init, e := events[..|events| - 1], events[|events| - 1];
    assert forall i :: 0 <= i < |init| ==> init[i] == events[i];
    if HasRepeatedNumber(events) {
      var i, j :| 0 <= i < j < |events| && Truthy(events[i].arrangementNummer)
                  && events[i].arrangementNummer == events[j].arrangementNummer;
      if j == |events| - 1 {
        assert NumberAt(init, i, e.arrangementNummer.value);
      } else {
        assert Truthy(init[i].arrangementNummer) && init[i].arrangementNummer == init[j].arrangementNummer;
      }
    }
    if HasRepeatedNumber(init) {
      var i, j :| 0 <= i < j < |init| && Truthy(init[i].arrangementNummer)
                  && init[i].arrangementNummer == init[j].arrangementNummer;
      assert Truthy(events[i].arrangementNummer) && events[i].arrangementNummer == events[j].arrangementNummer;
    }
    if Truthy(e.arrangementNummer) && exists i :: 0 <= i < |init| && NumberAt(init, i, e.arrangementNummer.value) {
      var i :| 0 <= i < |init| && NumberAt(init, i, e.arrangementNummer.value);
      assert events[i].arrangementNummer == events[|events| - 1].arrangementNummer;
    }
  }

  lemma {:induction false} NumbersDistinct(events: seq<EventTagRequest>)
    ensures Distinct(ArrangementNumbers(events)) <==> !HasRepeatedNumber(events)
    decreases |events|
  {
    if events != [] {
      var init := events[..|events| - 1];
      var e := events[|events| - 1];
      NumbersDistinct(init);
      RepeatSnoc(events);
      var rest := ArrangementNumbers(init);
      if Truthy(e.arrangementNummer) {
        var x := e.arrangementNummer.value;
        assert ArrangementNumbers(events) == rest + [x];
        DistinctSnoc(rest, x);
        NumbersMembership(init, x);
      } else {
        assert ArrangementNumbers(events) == rest + [];
        assert rest + [] == rest;
      }
    }
  }
}
