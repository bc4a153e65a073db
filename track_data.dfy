/** Shared data model of the track client: the JSON values the music catalog
    returns, a track as a mutable dictionary, the eleven audio-feature names
    both static helpers accept, and the errors the client raises. */
module TrackData {

  /** A JSON value as the catalog client decodes it. Numbers are modelled as
      integers: only their order matters to the client. */
  datatype Value =
    | Null
    | Bool(b: bool)
    | Num(n: int)
    | Str(s: string)
    | List(items: seq<Value>)
    | Dict(entries: map<string, Value>)

  /** The contents of one track dictionary. */
  type TrackMap = map<string, Value>

  /** A track dictionary that the client updates in place. */
  class TrackDict {
    var fields: TrackMap

    constructor (fields: TrackMap)
      ensures this.fields == fields
    {
      this.fields := fields;
    }
  }

  /** The contents of a list of track dictionaries, position by position. */
  function Snapshot(tracks: seq<TrackDict>): (ms: seq<TrackMap>)
    reads set t | t in tracks
    ensures |ms| == |tracks|
    ensures forall i :: 0 <= i < |tracks| ==> ms[i] == tracks[i].fields
  {
    if tracks == [] then [] else [tracks[0].fields] + Snapshot(tracks[1..])
  }

  /** The allow-list of audio features, in the order the client lists them. */
  const ValidFeatures: seq<string> :=
    ["danceability", "energy", "key", "loudness", "mode", "speechiness",
     "acousticness", "instrumentalness", "liveness", "valence", "tempo"]

  /** The exceptions the client raises on purpose. */
  datatype TrackError =
    | NameMismatch    // the top hit's artist is not the queried one
    | InvalidFeature  // the feature is not on the allow-list

  datatype Result<T> = Success(value: T) | Failure(error: TrackError)

  /** The allow-list has eleven distinct names. */
  lemma ValidFeaturesDistinct()
    ensures |ValidFeatures| == 11
    ensures forall i, j :: 0 <= i < j < |ValidFeatures| ==> ValidFeatures[i] != ValidFeatures[j]
  {
  }

  /** Keys of the catalog's audio-feature payload that are not on the
      allow-list, and the track's own nested payload key. */
  lemma NotValidFeatures()
    ensures "id" !in ValidFeatures && "uri" !in ValidFeatures
    ensures "time_signature" !in ValidFeatures && "analysis_url" !in ValidFeatures
    ensures "track_href" !in ValidFeatures && "type" !in ValidFeatures
    ensures "duration_ms" !in ValidFeatures && "audio_features" !in ValidFeatures
  {
  }
}
