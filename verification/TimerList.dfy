/** std::set<std::pair<Timestamp, Timer*>>: a strictly increasing sequence of entries. */
module TimerList {
  /** An expiration in microseconds and a timer address. */
  datatype Entry = Entry(when: int, addr: nat)

  predicate Less(e: Entry, f: Entry) {
    e.when < f.when || (e.when == f.when && e.addr < f.addr)
  }

  predicate Sorted(es: seq<Entry>) {
    forall i, j :: 0 <= i < j < |es| ==> Less(es[i], es[j])
  }

  /** lower_bound: how many elements are less than e. */
  function LowerBound(es: seq<Entry>, e: Entry): (k: nat)
    ensures k <= |es|
    ensures forall i :: 0 <= i < k ==> Less(es[i], e)
    ensures k < |es| ==> !Less(es[k], e)
  {
    if es == [] || !Less(es[0], e) then 0 else 1 + LowerBound(es[1..], e)
  }

  function Inserted(es: seq<Entry>, e: Entry): seq<Entry> {
    var k := LowerBound(es, e);
    es[..k] + [e] + es[k..]
  }

  function Erased(es: seq<Entry>, e: Entry): seq<Entry> {
    var k := LowerBound(es, e);
    if k < |es| && es[k] == e then es[..k] + es[k + 1..] else es
  }

  lemma InsertedSorted(es: seq<Entry>, e: Entry)
    requires Sorted(es) && e !in es
    ensures Sorted(Inserted(es, e))
    ensures Inserted(es, e)[0] == if es == [] || Less(e, es[0]) then e else es[0]
  {
    hide LowerBound;
    var k := LowerBound(es, e);
    if k < |es| {
      assert es[k] in es;
      assert forall i :: k <= i < |es| ==> Less(e, es[i]);
    }
  }

  lemma InsertedElements(es: seq<Entry>, e: Entry)
    ensures forall f :: f in Inserted(es, e) <==> f in es || f == e
    ensures |Inserted(es, e)| == |es| + 1
  {
    hide LowerBound, Less;
    var k := LowerBound(es, e);
    assert es == es[..k] + es[k..];
  }

  lemma ErasedSorted(es: seq<Entry>, e: Entry)
    requires Sorted(es) && e in es
    ensures Sorted(Erased(es, e)) && |Erased(es, e)| == |es| - 1
    ensures Erased(es, e) != [] ==> es[0].when <= Erased(es, e)[0].when
  {
    hide LowerBound;
    Found(es, e);
  }

  lemma ErasedElements(es: seq<Entry>, e: Entry)
    requires Sorted(es) && e in es
    ensures forall f :: f in Erased(es, e) <==> f in es && f != e
  {
    hide LowerBound;
    Found(es, e);
    var k := LowerBound(es, e);
    assert es == es[..k] + [e] + es[k + 1..];
    assert e !in es[..k] && e !in es[k + 1..];
  }

  lemma Found(es: seq<Entry>, e: Entry)
    requires Sorted(es) && e in es
    ensures var k := LowerBound(es, e); k < |es| && es[k] == e
  {
    hide LowerBound;
    var i :| 0 <= i < |es| && es[i] == e;
  }

  /** The split at a sentry with the greatest address: exactly the entries up to its time come first. */
  lemma SplitAt(es: seq<Entry>, now: int, top: nat)
    requires Sorted(es) && forall e :: e in es ==> e.addr < top
    ensures var k := LowerBound(es, Entry(now, top));
            && (forall e :: e in es[..k] ==> e.when <= now)
            && (forall e :: e in es[k..] ==> now < e.when)
  {
    hide LowerBound;
    var k := LowerBound(es, Entry(now, top));
    if k < |es| {
      assert es[k] in es;
      assert forall i :: k < i < |es| ==> Less(es[k], es[i]);
    }
  }

  /** Splitting a sorted sequence anywhere. */
  lemma SplitElements(es: seq<Entry>, k: nat)
    requires Sorted(es) && k <= |es|
    ensures Sorted(es[..k]) && Sorted(es[k..])
    ensures forall e :: e in es <==> e in es[..k] || e in es[k..]
    ensures forall e :: e in es[..k] ==> e !in es[k..]
  {
    assert es == es[..k] + es[k..];
  }
}
