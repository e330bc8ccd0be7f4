/** Comparison of health reports that ignores when each status was observed. */
module Health {
  import opened Proto

  /** The comparison as the client makes it: fields one by one, then the two
      component maps by size and by looking up every key of the left one. */
  predicate IsSameAs(a: ComponentHealth, b: ComponentHealth)
    decreases a
  {
    && a.healthy == b.healthy
    && a.startTimeUnixNano == b.startTimeUnixNano
    && a.lastError == b.lastError
    && a.status == b.status
    && |a.componentHealthMap| == |b.componentHealthMap|
    && (forall key | key in a.componentHealthMap ::
          && key in b.componentHealthMap
          && IsSameAs(a.componentHealthMap[key], b.componentHealthMap[key]))
  }

  /** The report with every status timestamp, at every depth, set to zero. */
  function Untimed(h: ComponentHealth): ComponentHealth
    decreases h
  {
    h.(statusTimeUnixNano := 0,
       componentHealthMap := map key | key in h.componentHealthMap :: Untimed(h.componentHealthMap[key]))
  }

  lemma SubsetOfSameSize<T>(a: set<T>, b: set<T>)
    requires a <= b && |a| == |b|
    ensures a == b
  {
    assert |b - a| == |b| - |a|;
    assert b == a + (b - a);
  }

  /** `IsSameAs` is equality of untimed reports. */
  lemma {:induction false} SameIffUntimedEqual(a: ComponentHealth, b: ComponentHealth)
    ensures IsSameAs(a, b) <==> Untimed(a) == Untimed(b)
    decreases a
  {
    var (m, n) := (a.componentHealthMap, b.componentHealthMap);
    forall key | key in m && key in n
      ensures IsSameAs(m[key], n[key]) <==> Untimed(m[key]) == Untimed(n[key])
    {
      SameIffUntimedEqual(m[key], n[key]);
    }
    var (um, un) := (Untimed(a).componentHealthMap, Untimed(b).componentHealthMap);
    assert um.Keys == m.Keys && un.Keys == n.Keys;
    if IsSameAs(a, b) {
      SubsetOfSameSize(m.Keys, n.Keys);
      assert um == un;
    }
    if Untimed(a) == Untimed(b) {
      assert m.Keys == n.Keys && |m.Keys| == |m| && |n.Keys| == |n|;
      forall key | key in m ensures IsSameAs(m[key], n[key]) {
        assert um[key] == un[key];
      }
    }
  }

  /** Hence it is an equivalence relation, on trees of any depth and width. */
  lemma {:induction false} SameIsEquivalence(a: ComponentHealth, b: ComponentHealth, c: ComponentHealth)
    ensures IsSameAs(a, a)
    ensures IsSameAs(a, b) ==> IsSameAs(b, a)
    ensures IsSameAs(a, b) && IsSameAs(b, c) ==> IsSameAs(a, c)
  {
    SameIffUntimedEqual(a, a);
    SameIffUntimedEqual(a, b);
    SameIffUntimedEqual(b, a);
    SameIffUntimedEqual(b, c);
    SameIffUntimedEqual(a, c);
  }
}
