/** Strict weak orders, and the replay order on envelopes. */
module Order {

  /** The incomparability form of a strict weak order: irreflexive, and transitive in `less` and in "not after". */
  ghost predicate StrictWeak<T(!new)>(less: (T, T) -> bool) {
    && (forall a :: !less(a, a))
    && (forall a, b, c :: less(a, b) && less(b, c) ==> less(a, c))
    && (forall a, b, c :: !less(b, a) && !less(c, b) ==> !less(c, a))
  }

  /** No element comes strictly before an earlier one. */
  ghost predicate Sorted<T>(less: (T, T) -> bool, s: seq<T>) {
    forall i, j :: 0 <= i < j < |s| ==> !less(s[j], s[i])
  }
}

module EnvelopeOrder {
  import opened Text
  import opened Order

  datatype Envelope = Envelope(
    tsIngest: int, venue: string, instrument: string, eventType: string, seqNo: int, idempotencyKey: string)

  /** envelopeLess */
  predicate EnvelopeLess(a: Envelope, b: Envelope) {
    if a.tsIngest != b.tsIngest then a.tsIngest < b.tsIngest else
    var aVenue, bVenue := ToLower(TrimSpace(a.venue)), ToLower(TrimSpace(b.venue));
    if aVenue != bVenue then StringLess(aVenue, bVenue) else
    var aInstrument, bInstrument := ToUpper(TrimSpace(a.instrument)), ToUpper(TrimSpace(b.instrument));
    if aInstrument != bInstrument then StringLess(aInstrument, bInstrument) else
    var aType, bType := ToLower(TrimSpace(a.eventType)), ToLower(TrimSpace(b.eventType));
    if aType != bType then StringLess(aType, bType) else
    if a.seqNo != b.seqNo then a.seqNo < b.seqNo else
    StringLess(TrimSpace(a.idempotencyKey), TrimSpace(b.idempotencyKey))
  }

  /** What the replay order looks at: the normalised fields, most significant first. */
  datatype SortKey = SortKey(ts: int, venue: string, instrument: string, eventType: string, seqNo: int, id: string)

  function KeyOf(e: Envelope): SortKey {
    SortKey(e.tsIngest, ToLower(TrimSpace(e.venue)), ToUpper(TrimSpace(e.instrument)),
            ToLower(TrimSpace(e.eventType)), e.seqNo, TrimSpace(e.idempotencyKey))
  }

  predicate KeyLess(a: SortKey, b: SortKey) {
    if a.ts != b.ts then a.ts < b.ts else
    if a.venue != b.venue then StringLess(a.venue, b.venue) else
    if a.instrument != b.instrument then StringLess(a.instrument, b.instrument) else
    if a.eventType != b.eventType then StringLess(a.eventType, b.eventType) else
    if a.seqNo != b.seqNo then a.seqNo < b.seqNo else
    StringLess(a.id, b.id)
  }

  lemma KeyTrichotomy(a: SortKey, b: SortKey)
    ensures !KeyLess(a, a)
    ensures a == b || KeyLess(a, b) || KeyLess(b, a)
    ensures !(KeyLess(a, b) && KeyLess(b, a))
  {
    StringLessTrichotomy(a.venue, b.venue);
    StringLessTrichotomy(a.instrument, b.instrument);
    StringLessTrichotomy(a.eventType, b.eventType);
    StringLessTrichotomy(a.id, b.id);
  }

  lemma KeyTransitive(a: SortKey, b: SortKey, c: SortKey)
    requires KeyLess(a, b) && KeyLess(b, c)
    ensures KeyLess(a, c)
  {
    KeyTrichotomy(a, b);
    KeyTrichotomy(b, c);
    if StringLess(a.venue, b.venue) && StringLess(b.venue, c.venue) {
      StringLessTransitive(a.venue, b.venue, c.venue);
      StringLessTrichotomy(a.venue, c.venue);
    }
    if StringLess(a.instrument, b.instrument) && StringLess(b.instrument, c.instrument) {
      StringLessTransitive(a.instrument, b.instrument, c.instrument);
      StringLessTrichotomy(a.instrument, c.instrument);
    }
    if StringLess(a.eventType, b.eventType) && StringLess(b.eventType, c.eventType) {
      StringLessTransitive(a.eventType, b.eventType, c.eventType);
      StringLessTrichotomy(a.eventType, c.eventType);
    }
    if StringLess(a.id, b.id) && StringLess(b.id, c.id) {
      StringLessTransitive(a.id, b.id, c.id);
    }
  }

  /** The replay order is a strict weak order, and two envelopes tie exactly when all six normalised fields agree. */
  lemma EnvelopeLessIsStrictWeak()
    ensures StrictWeak(EnvelopeLess)
    ensures forall a, b :: !EnvelopeLess(a, b) && !EnvelopeLess(b, a) <==> KeyOf(a) == KeyOf(b)
  {
    forall a, b
      ensures EnvelopeLess(a, b) == KeyLess(KeyOf(a), KeyOf(b))
      ensures !EnvelopeLess(a, b) && !EnvelopeLess(b, a) <==> KeyOf(a) == KeyOf(b)
    {
      KeyTrichotomy(KeyOf(a), KeyOf(b));
    }
    forall a, b, c | EnvelopeLess(a, b) && EnvelopeLess(b, c)
      ensures EnvelopeLess(a, c)
    {
      KeyTransitive(KeyOf(a), KeyOf(b), KeyOf(c));
    }
    forall a, b, c | !EnvelopeLess(b, a) && !EnvelopeLess(c, b)
      ensures !EnvelopeLess(c, a)
    {
      KeyTrichotomy(KeyOf(a), KeyOf(b));
      KeyTrichotomy(KeyOf(b), KeyOf(c));
      KeyTrichotomy(KeyOf(a), KeyOf(c));
      if KeyLess(KeyOf(a), KeyOf(b)) && KeyLess(KeyOf(b), KeyOf(c)) {
        KeyTransitive(KeyOf(a), KeyOf(b), KeyOf(c));
      }
    }
  }

  /** One normalised text comes before another as in a dictionary. */
  ghost predicate Earlier(a: string, b: string) {
    exists i :: PartsAt(a, b, i)
  }

  /** The fields in turn, most significant first: the first that differs decides. */
  ghost predicate Precedes(a: SortKey, b: SortKey) {
    || a.ts < b.ts
    || (a.ts == b.ts && Earlier(a.venue, b.venue))
    || (a.ts == b.ts && a.venue == b.venue && Earlier(a.instrument, b.instrument))
    || (a.ts == b.ts && a.venue == b.venue && a.instrument == b.instrument && Earlier(a.eventType, b.eventType))
    || (a.ts == b.ts && a.venue == b.venue && a.instrument == b.instrument && a.eventType == b.eventType && a.seqNo < b.seqNo)
    || (a.ts == b.ts && a.venue == b.venue && a.instrument == b.instrument && a.eventType == b.eventType &&
        a.seqNo == b.seqNo && Earlier(a.id, b.id))
  }

  /**
   * Which envelope comes first: the older one; at equal times the one of the venue that is earlier in the dictionary, then
   * likewise by instrument and type, then the smaller sequence number, then the idempotency key.
   */
  lemma OldestFirst(a: Envelope, b: Envelope)
    ensures EnvelopeLess(a, b) <==> Precedes(KeyOf(a), KeyOf(b))
  {
    var x, y := KeyOf(a), KeyOf(b);
    StringLessIsDictionary(x.venue, y.venue);
    StringLessIsDictionary(x.instrument, y.instrument);
    StringLessIsDictionary(x.eventType, y.eventType);
    StringLessIsDictionary(x.id, y.id);
    StringLessTrichotomy(x.venue, y.venue);
    StringLessTrichotomy(x.instrument, y.instrument);
    StringLessTrichotomy(x.eventType, y.eventType);
    assert EnvelopeLess(a, b) <==> KeyLess(x, y);
  }

  /** An envelope that does not come after another is no younger, and precedes it or has the same fields. */
  lemma InOrder(a: Envelope, b: Envelope)
    requires !EnvelopeLess(b, a)
    ensures a.tsIngest <= b.tsIngest && (Precedes(KeyOf(a), KeyOf(b)) || KeyOf(a) == KeyOf(b))
  {
    EnvelopeLessIsStrictWeak();
    OldestFirst(a, b);
    OldestFirst(b, a);
  }
}
