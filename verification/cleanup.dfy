/** The one-off repair of legacy donation documents: a document whose donor or
    title is undefined gets a placeholder, and the batch is committed only when
    something was fixed. */
module Cleanup {

  /** A stored field: undefined, explicitly null, or a value. Only undefined
      counts as missing. */
  datatype Field = Undefined | Null | Text(value: string)

  datatype LegacyDoc = LegacyDoc(id: string, donor: Field, title: Field)

  const PlaceholderDonor: string := "legacy-unknown-donor"
  const PlaceholderTitle: string := "Legacy Donation"

  predicate NeedsFix(d: LegacyDoc) {
    d.donor == Undefined || d.title == Undefined
  }

  /** The document after its queued update: each undefined field is replaced by
      its placeholder; a null field is left alone. */
  function Fix(d: LegacyDoc): (r: LegacyDoc)
    ensures !NeedsFix(r)
    ensures r.id == d.id
    ensures d.donor == Undefined ==> r.donor == Text(PlaceholderDonor)
    ensures d.donor != Undefined ==> r.donor == d.donor
    ensures d.title == Undefined ==> r.title == Text(PlaceholderTitle)
    ensures d.title != Undefined ==> r.title == d.title
  {
    d.(donor := if d.donor == Undefined then Text(PlaceholderDonor) else d.donor,
       title := if d.title == Undefined then Text(PlaceholderTitle) else d.title)
  }

  /** Number of documents needing a fix. */
  function FixCount(docs: seq<LegacyDoc>): (n: nat)
    ensures n <= |docs|
    ensures n == 0 <==> forall i :: 0 <= i < |docs| ==> !NeedsFix(docs[i])
  {
    if |docs| == 0 then 0
    else FixCount(docs[..|docs| - 1]) + (if NeedsFix(docs[|docs| - 1]) then 1 else 0)
  }

  /** One pass: queues a fix per malformed document, counts them, and commits
      when the count is positive. The result is the collection after the pass. */
  method CleanupDonations(docs: seq<LegacyDoc>) returns (after: seq<LegacyDoc>, fixedCount: nat, committed: bool)
    ensures fixedCount == FixCount(docs)
    ensures committed <==> fixedCount > 0
    ensures |after| == |docs|
    ensures forall i :: 0 <= i < |docs| ==> after[i] == if NeedsFix(docs[i]) then Fix(docs[i]) else docs[i]
    ensures forall i :: 0 <= i < |after| ==> !NeedsFix(after[i])
  {
    var queued: seq<LegacyDoc> := [];
    fixedCount := 0;
    var i := 0;
    while i < |docs|
      invariant 0 <= i <= |docs|
      invariant fixedCount == FixCount(docs[..i])
      invariant |queued| == i
      invariant forall k :: 0 <= k < i ==> queued[k] == if NeedsFix(docs[k]) then Fix(docs[k]) else docs[k]
    {
      assert docs[..i + 1][..i] == docs[..i];
      assert FixCount(docs[..i + 1]) == FixCount(docs[..i]) + (if NeedsFix(docs[i]) then 1 else 0);
      if NeedsFix(docs[i]) {
        queued := queued + [Fix(docs[i])];
        fixedCount := fixedCount + 1;
      } else {
        queued := queued + [docs[i]];
      }
      i := i + 1;
    }
    assert docs[..i] == docs;
    committed := fixedCount > 0;
    after := if committed then queued else docs;
  }

  /** Running the repair again on its own output finds nothing to fix and
      commits nothing. */
  method CleanupTwice(docs: seq<LegacyDoc>) returns (secondCount: nat, secondCommitted: bool)
    ensures secondCount == 0 && !secondCommitted
  {
    var after, _, _ := CleanupDonations(docs);
    var again;
    again, secondCount, secondCommitted := CleanupDonations(after);
  }

  /** A null donor or title is not repaired. */
  lemma NullIsNotMissing(id: string)
    ensures !NeedsFix(LegacyDoc(id, Null, Null))
    ensures FixCount([LegacyDoc(id, Null, Null)]) == 0
  {
    assert [LegacyDoc(id, Null, Null)][..0] == [];
  }
}
