/** `TrackClient.sortTracksByAudioFeature`: project every track to the record
    {selected_feature, feature_value, name} and sort the records ascending by
    feature value, stably, as Python's `list.sort` does. */
module FeatureSort {
  import opened TrackData

  /** The record built for each track (`meta` in the client). */
  datatype FeatureEntry = FeatureEntry(selectedFeature: string, featureValue: int, name: Value)

  /** The track exposes the feature as a number and has a name, so that
      `track[feature]` and `track['name']` are defined and the values can be
      compared. */
  predicate Projectable(feature: string, m: TrackMap)
  {
    feature in m && m[feature].Num? && "name" in m
  }

  function Project(feature: string, m: TrackMap): FeatureEntry
    requires Projectable(feature, m)
  {
    FeatureEntry(feature, m[feature].n, m["name"])
  }

  function Projections(feature: string, ms: seq<TrackMap>): (es: seq<FeatureEntry>)
    requires forall i :: 0 <= i < |ms| ==> Projectable(feature, ms[i])
  {
    seq(|ms|, i requires 0 <= i < |ms| => Project(feature, ms[i]))
  }

  /** Ascending by feature value. */
  predicate SortedByValue(s: seq<FeatureEntry>)
  {
    forall i, j :: 0 <= i < j < |s| ==> s[i].featureValue <= s[j].featureValue
  }

  /** The entries whose feature value is `v`, in their order in `s`. */
  function WithValue(s: seq<FeatureEntry>, v: int): seq<FeatureEntry>
  {
    if s == [] then []
    else (if s[0].featureValue == v then [s[0]] else []) + WithValue(s[1..], v)
  }

  /** Inserts `x` before the first entry whose value is not smaller, so that
      `x` stays ahead of the entries with its own value. */
  function Insert(x: FeatureEntry, s: seq<FeatureEntry>): seq<FeatureEntry>
  {
    if s == [] || x.featureValue <= s[0].featureValue then [x] + s
    else [s[0]] + Insert(x, s[1..])
  }

  /** A stable sort by feature value: the role of `list.sort(key=...)`. */
  function SortByValue(s: seq<FeatureEntry>): seq<FeatureEntry>
  {
    if s == [] then [] else Insert(s[0], SortByValue(s[1..]))
  }

  lemma {:induction false} InsertSorted(x: FeatureEntry, s: seq<FeatureEntry>)
    requires SortedByValue(s)
    ensures SortedByValue(Insert(x, s))
    ensures s != [] ==> Insert(x, s)[0].featureValue == if x.featureValue <= s[0].featureValue then x.featureValue else s[0].featureValue
  {
    if s != [] && x.featureValue > s[0].featureValue {
      InsertSorted(x, s[1..]);
    }
  }

  lemma {:induction false} InsertPermutes(x: FeatureEntry, s: seq<FeatureEntry>)
    ensures multiset(Insert(x, s)) == multiset([x] + s)
  {
    if s != [] && x.featureValue > s[0].featureValue {
      InsertPermutes(x, s[1..]);
      assert s == [s[0]] + s[1..];
    }
  }

  lemma {:induction false} WithValueConcat(a: seq<FeatureEntry>, b: seq<FeatureEntry>, v: int)
    ensures WithValue(a + b, v) == WithValue(a, v) + WithValue(b, v)
  {
    if a != [] {
      assert (a + b)[1..] == a[1..] + b;
      WithValueConcat(a[1..], b, v);
    } else {
      assert a + b == b;
    }
  }

  /** The contribution of one entry to `WithValue`. */
  function OneWithValue(e: FeatureEntry, v: int): seq<FeatureEntry>
  {
    if e.featureValue == v then [e] else []
  }

  lemma WithValueCons(e: FeatureEntry, s: seq<FeatureEntry>, v: int)
    ensures WithValue([e] + s, v) == OneWithValue(e, v) + WithValue(s, v)
  {
    assert ([e] + s)[0] == e;
    assert ([e] + s)[1..] == s;
  }

  lemma {:induction false} InsertStable(x: FeatureEntry, s: seq<FeatureEntry>, v: int)
    ensures WithValue(Insert(x, s), v) == WithValue([x] + s, v)
  {
    if s != [] && x.featureValue > s[0].featureValue {
      var s0, rest := s[0], s[1..];
      assert s == [s0] + rest;
      InsertStable(x, rest, v);
      WithValueCons(s0, Insert(x, rest), v);
      WithValueCons(x, rest, v);
      WithValueCons(s0, rest, v);
      WithValueCons(x, s, v);
      assert OneWithValue(s0, v) + OneWithValue(x, v) == OneWithValue(x, v) + OneWithValue(s0, v);
      calc {
        WithValue(Insert(x, s), v);
        OneWithValue(s0, v) + WithValue(Insert(x, rest), v);
        OneWithValue(s0, v) + (OneWithValue(x, v) + WithValue(rest, v));
        (OneWithValue(x, v) + OneWithValue(s0, v)) + WithValue(rest, v);
        OneWithValue(x, v) + WithValue(s, v);
        WithValue([x] + s, v);
      }
    }
  }

  /** The sort's output is ascending by feature value. */
  lemma {:induction false} SortSorted(s: seq<FeatureEntry>)
    ensures SortedByValue(SortByValue(s))
  {
    if s != [] {
      SortSorted(s[1..]);
      InsertSorted(s[0], SortByValue(s[1..]));
    }
  }

  /** The sort's output is a permutation of its input. */
  lemma {:induction false} SortPermutes(s: seq<FeatureEntry>)
    ensures multiset(SortByValue(s)) == multiset(s)
    ensures |SortByValue(s)| == |s|
  {
    if s != [] {
      SortPermutes(s[1..]);
      InsertPermutes(s[0], SortByValue(s[1..]));
      assert s == [s[0]] + s[1..];
    }
    assert |multiset(SortByValue(s))| == |multiset(s)|;
  }

  /** The sort is stable: the entries with any one feature value keep their
      input order. */
  lemma {:induction false} SortStable(s: seq<FeatureEntry>, v: int)
    ensures WithValue(SortByValue(s), v) == WithValue(s, v)
  {
    if s != [] {
      SortStable(s[1..], v);
      InsertStable(s[0], SortByValue(s[1..]), v);
      WithValueConcat([s[0]], SortByValue(s[1..]), v);
      WithValueConcat([s[0]], s[1..], v);
      assert s == [s[0]] + s[1..];
    }
  }

  lemma {:induction false} WithValueHead(s: seq<FeatureEntry>)
    requires s != []
    ensures WithValue(s, s[0].featureValue) != []
    ensures WithValue(s, s[0].featureValue)[0] == s[0]
  {
  }

  lemma {:induction false} WithValueNonEmpty(s: seq<FeatureEntry>, v: int)
    requires WithValue(s, v) != []
    ensures exists k :: 0 <= k < |s| && s[k].featureValue == v
  {
    if s[0].featureValue != v {
      WithValueNonEmpty(s[1..], v);
      var k :| 0 <= k < |s[1..]| && s[1..][k].featureValue == v;
      assert s[k + 1].featureValue == v;
    }
  }

  /** A sorted sequence is determined by its entries per feature value: two
      sorted sequences that agree on every `WithValue` are equal. So sortedness
      and stability pin the output of `SortByValue` down completely. */
  lemma {:induction false} SortedUnique(r1: seq<FeatureEntry>, r2: seq<FeatureEntry>)
    requires SortedByValue(r1) && SortedByValue(r2)
    requires forall v :: WithValue(r1, v) == WithValue(r2, v)
    ensures r1 == r2
  {
    if r1 == [] && r2 != [] {
      WithValueHead(r2);
    } else if r1 != [] && r2 == [] {
      WithValueHead(r1);
    } else if r1 != [] {
      var v1, v2 := r1[0].featureValue, r2[0].featureValue;
      WithValueHead(r1);
      WithValueHead(r2);
      WithValueNonEmpty(r2, v1);
      WithValueNonEmpty(r1, v2);
      assert v1 == v2;
      assert r1[0] == r2[0];
      forall v ensures WithValue(r1[1..], v) == WithValue(r2[1..], v) {
        var h := if r1[0].featureValue == v then [r1[0]] else [];
        var t1, t2 := WithValue(r1[1..], v), WithValue(r2[1..], v);
        assert WithValue(r1, v) == h + t1;
        assert WithValue(r2, v) == h + t2;
        assert t1 == (h + t1)[|h|..];
        assert t2 == (h + t2)[|h|..];
      }
      SortedUnique(r1[1..], r2[1..]);
      assert r1 == [r1[0]] + r1[1..];
      assert r2 == [r2[0]] + r2[1..];
    }
  }

  /** `SortByValue` is the stable sort: any sorted arrangement of `s` that
      keeps the input order within each feature value is exactly its output. */
  lemma SortIsTheStableSort(s: seq<FeatureEntry>, r: seq<FeatureEntry>)
    requires SortedByValue(r)
    requires forall v :: WithValue(r, v) == WithValue(s, v)
    ensures r == SortByValue(s)
  {
    SortSorted(s);
    forall v ensures WithValue(r, v) == WithValue(SortByValue(s), v) {
      SortStable(s, v);
    }
    SortedUnique(r, SortByValue(s));
  }

  /** `sortTracksByAudioFeature(feature, tracks)`. It fails exactly when the
      feature is not on the allow-list; otherwise it returns one entry per
      track, ascending by value, stable, a permutation of the projections. */
  method SortTracksByAudioFeature(feature: string, tracks: seq<TrackDict>)
    returns (r: Result<seq<FeatureEntry>>)
    requires feature in ValidFeatures ==>
               forall i :: 0 <= i < |tracks| ==> Projectable(feature, tracks[i].fields)
    ensures r.Failure? <==> feature !in ValidFeatures
    ensures r.Failure? ==> r.error == InvalidFeature
    ensures r.Success? ==>
              && |r.value| == |tracks|
              && SortedByValue(r.value)
              && multiset(r.value) == multiset(Projections(feature, Snapshot(tracks)))
              && (forall v :: WithValue(r.value, v) == WithValue(Projections(feature, Snapshot(tracks)), v))
              && r.value == SortByValue(Projections(feature, Snapshot(tracks)))
  {
    var trackFeatures: seq<FeatureEntry> := [];
    if feature !in ValidFeatures {
      return Failure(InvalidFeature);
    }
    ghost var ms := Snapshot(tracks);
    for i := 0 to |tracks|
      invariant trackFeatures == Projections(feature, ms[..i])
    {
      var meta := FeatureEntry(feature, tracks[i].fields[feature].n, tracks[i].fields["name"]);
      trackFeatures := trackFeatures + [meta];
    }
    assert ms[..|tracks|] == ms;
    var sorted := SortByValue(trackFeatures);
    SortSorted(trackFeatures);
    SortPermutes(trackFeatures);
    forall v ensures WithValue(sorted, v) == WithValue(trackFeatures, v) {
      SortStable(trackFeatures, v);
    }
    r := Success(sorted);
  }
}
