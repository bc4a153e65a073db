/** `TrackClient.serializeTracks`: copy the allow-listed audio features of
    each track from its nested `audio_features` dictionary to its top level,
    updating the track dictionaries in place. */
module Serialization {
  import opened TrackData

  /** The track carries its audio-feature payload as a dictionary, so that
      `track['audio_features'].items()` is defined. */
  predicate HasFeaturePayload(m: TrackMap)
  {
    "audio_features" in m && m["audio_features"].Dict?
  }

  function Payload(m: TrackMap): map<string, Value>
    requires HasFeaturePayload(m)
  {
    m["audio_features"].entries
  }

  /** The allow-listed part of an audio-feature payload. */
  function AllowedFeatures(p: map<string, Value>): (a: map<string, Value>)
    ensures forall k :: k in a <==> k in p && k in ValidFeatures
    ensures forall k :: k in a ==> a[k] == p[k]
  {
    map k | k in p && k in ValidFeatures :: p[k]
  }

  /** One track after serialization. */
  function Flatten(m: TrackMap): TrackMap
    requires HasFeaturePayload(m)
  {
    m + AllowedFeatures(Payload(m))
  }

  /** What serialization does to one track: every allow-listed key of the
      payload is copied with its value; no other key is added; every key that
      is not copied keeps its value, the payload included. */
  lemma FlattenSpec(m: TrackMap)
    requires HasFeaturePayload(m)
    ensures forall k :: k in ValidFeatures && k in Payload(m) ==>
              k in Flatten(m) && Flatten(m)[k] == Payload(m)[k]
    ensures Flatten(m).Keys == m.Keys + (Payload(m).Keys * set k | k in ValidFeatures)
    ensures forall k :: k in m && !(k in ValidFeatures && k in Payload(m)) ==>
              k in Flatten(m) && Flatten(m)[k] == m[k]
    ensures HasFeaturePayload(Flatten(m)) && Payload(Flatten(m)) == Payload(m)
  {
    NotValidFeatures();
  }

  /** A payload key that is not on the allow-list (`id`, `uri`,
      `time_signature`, `analysis_url`, ...) never reaches the top level. */
  lemma FlattenDropsUnlisted(m: TrackMap, k: string)
    requires HasFeaturePayload(m)
    requires k !in ValidFeatures
    ensures k in Flatten(m) <==> k in m
    ensures k in m ==> Flatten(m)[k] == m[k]
  {
  }

  /** Serializing a serialized track changes nothing. */
  lemma FlattenIdempotent(m: TrackMap)
    requires HasFeaturePayload(m)
    ensures HasFeaturePayload(Flatten(m))
    ensures Flatten(Flatten(m)) == Flatten(m)
  {
    FlattenSpec(m);
    var once := Flatten(m);
    assert Payload(once) == Payload(m);
    assert (once + AllowedFeatures(Payload(m))).Keys == once.Keys;
  }

  /** Serialization of a whole list of track contents, position by position. */
  function FlattenAll(ms: seq<TrackMap>): (r: seq<TrackMap>)
    requires forall i :: 0 <= i < |ms| ==> HasFeaturePayload(ms[i])
  {
    seq(|ms|, i requires 0 <= i < |ms| => Flatten(ms[i]))
  }

  /** Serializing a list twice gives what serializing it once gives, and
      keeps its length and order. */
  lemma {:induction false} FlattenAllIdempotent(ms: seq<TrackMap>)
    requires forall i :: 0 <= i < |ms| ==> HasFeaturePayload(ms[i])
    ensures |FlattenAll(ms)| == |ms|
    ensures forall i :: 0 <= i < |ms| ==> HasFeaturePayload(FlattenAll(ms)[i])
    ensures FlattenAll(FlattenAll(ms)) == FlattenAll(ms)
  {
    forall i | 0 <= i < |ms|
      ensures HasFeaturePayload(FlattenAll(ms)[i])
      ensures Flatten(FlattenAll(ms)[i]) == FlattenAll(ms)[i]
    {
      FlattenIdempotent(ms[i]);
    }
  }

  /** The inner loop: for each (name, value) of the payload, assign
      `track[name] = value` when the name is on the allow-list. */
  method FlattenTrack(track: TrackDict)
    requires HasFeaturePayload(track.fields)
    modifies track
    ensures track.fields == Flatten(old(track.fields))
  {
    var features := track.fields["audio_features"].entries;
    var pending := features.Keys;
    ghost var done: set<string> := {};
    while pending != {}
      invariant pending !! done && pending + done == features.Keys
      invariant track.fields ==
                  old(track.fields) + map k | k in done && k in ValidFeatures :: features[k]
      decreases pending
    {
      var name :| name in pending;
      if name in ValidFeatures {
        track.fields := track.fields[name := features[name]];
      }
      pending := pending - {name};
      done := done + {name};
    }
    assert done == features.Keys;
  }

  /** `serializeTracks(data)`: serializes every track of `data` in place and
      returns the same list. A dictionary that occurs several times in the
      list is serialized once per occurrence, which by idempotence is the same
      as once. */
  method SerializeTracks(data: seq<TrackDict>) returns (r: seq<TrackDict>)
    requires forall t :: t in data ==> HasFeaturePayload(t.fields)
    modifies set t | t in data
    ensures r == data
    ensures forall t :: t in data ==> t.fields == Flatten(old(t.fields))
    ensures Snapshot(data) == FlattenAll(old(Snapshot(data)))
  {
    for i := 0 to |data|
      invariant forall t :: t in data && t in data[..i] ==>
                  HasFeaturePayload(old(t.fields)) && t.fields == Flatten(old(t.fields))
      invariant forall t :: t in data && t !in data[..i] ==> t.fields == old(t.fields)
    {
      var track := data[i];
      if track in data[..i] {
        FlattenIdempotent(old(track.fields));
      }
      FlattenTrack(track);
      assert data[..i + 1] == data[..i] + [track];
    }
    assert data[..|data|] == data;
    r := data;
  }
}
