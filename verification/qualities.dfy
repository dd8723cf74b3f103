/** The quality-selection collaborator the player controller drives: the
    qualities on offer and the one currently chosen. */
module Qualities {
  import opened Wrappers
  import opened Media

  datatype Handler = Handler(available: seq<Quality>, chosen: Option<int>)

  predicate Offers(qs: seq<Quality>, id: int)
  {
    exists k :: 0 <= k < |qs| && qs[k].id == id
  }

  /** A handler is consistent when it has a choice exactly when something
      is on offer, and that choice is on offer. */
  predicate Valid(h: Handler)
  {
    (|h.available| == 0 <==> h.chosen.None?) && (h.chosen.Some? ==> Offers(h.available, h.chosen.value))
  }

  /** `setAvailableQualities(list, stick)`: the current choice survives when
      asked to stick and still on offer; otherwise the first quality on offer
      is chosen, and nothing is chosen when nothing is on offer. */
  function SetAvailable(h: Handler, list: seq<Quality>, stick: bool): (r: Handler)
    ensures Valid(r)
    ensures r.available == list
    ensures stick && h.chosen.Some? && Offers(list, h.chosen.value) ==> r.chosen == h.chosen
    ensures !(stick && h.chosen.Some? && Offers(list, h.chosen.value)) && |list| > 0 ==>
              r.chosen == Some(list[0].id)
  {
    if stick && h.chosen.Some? && Offers(list, h.chosen.value) then Handler(list, h.chosen)
    else if |list| == 0 then Handler(list, None)
    else Handler(list, Some(list[0].id))
  }

  /** `hasQuality(id)`. */
  predicate Has(h: Handler, id: int)
  {
    Offers(h.available, id)
  }

  /** `setQuality(id)`: only a quality on offer can be chosen. */
  function Choose(h: Handler, id: int): (r: Handler)
    requires Has(h, id)
    ensures r.available == h.available && r.chosen == Some(id)
    ensures Valid(h) ==> Valid(r)
  {
    Handler(h.available, Some(id))
  }

  /** The qualities of a list of URI groups, in order. */
  function QualitiesOf(gs: seq<UriGroup>): (qs: seq<Quality>)
    ensures |qs| == |gs|
    ensures forall k :: 0 <= k < |gs| ==> qs[k] == gs[k].quality
  {
    if |gs| == 0 then [] else QualitiesOf(gs[..|gs| - 1]) + [gs[|gs| - 1].quality]
  }

  /** Offering the qualities of some groups offers exactly their ids. */
  lemma OffersQualitiesOf(gs: seq<UriGroup>, id: int)
    ensures Offers(QualitiesOf(gs), id) <==> id in QualityIds(gs)
  {
    var qs := QualitiesOf(gs);
    var ids := QualityIds(gs);
    if Offers(qs, id) {
      var k :| 0 <= k < |qs| && qs[k].id == id;
      assert ids[k] == id;
    }
    if id in ids {
      var k :| 0 <= k < |ids| && ids[k] == id;
      assert qs[k].id == id;
    }
  }

  /** A consistent handler offered its own list again, sticking, is
      unchanged. */
  lemma SetAvailableSameIsNoop(h: Handler)
    requires Valid(h)
    ensures SetAvailable(h, h.available, true) == h
  {
  }

  /** Offering the same list again while sticking keeps the choice. */
  lemma SetAvailableAgainKeepsChoice(h: Handler, list: seq<Quality>, stick: bool)
    ensures SetAvailable(SetAvailable(h, list, stick), list, true) == SetAvailable(h, list, stick)
  {
  }
}
