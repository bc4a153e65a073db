# TrackClient data shaping, modelled in Dafny

This project models the data-shaping logic of `TrackClient` in `web/tracks.py` of
songmetrics_django. The client fetches an artist's tracks from the Spotify
catalog, gives each track flat artist and album data and its audio features,
flattens the allow-listed audio features for storage, and sorts tracks by one
feature. The catalog calls are not modelled; their answers are parameters.

Files and modules:

- `track_data.dfy`, module `TrackData`: the JSON `Value` datatype and
  `TrackMap = map<string, Value>` (the contents of one track dictionary). It
  also holds the class `TrackDict` (a dictionary updated in place), the
  eleven-name allow-list `ValidFeatures`, and the two errors the client raises
  on purpose (`NameMismatch`, `InvalidFeature`) with a `Result` type.
- `strings.dfy`, module `Strings`: `str.lower()` on ASCII and Python's
  substring test `sub in s`.
- `serialization.dfy`, module `Serialization`: `serializeTracks`. Its
  specification is the function `Flatten` on one track's contents. The
  methods update `TrackDict` objects in place, assignment by assignment, and
  return the same list.
- `feature_sort.dfy`, module `FeatureSort`: `sortTracksByAudioFeature`. A
  loop projects each track to a `FeatureEntry` record
  `{selected_feature, feature_value, name}`. `list.sort(key=...)` becomes
  `SortByValue`, a pure stable insertion sort. Its proved properties are:
  sorted, a permutation of its input, stable, and the only sequence with those
  properties.
- `artist_tracks.dfy`, module `ArtistTracks`: the body of `getTracksByArtist`.
  It covers the case-insensitive name guard, the sanitize filter, the
  reshaping of each track, and accumulation in album-then-track order. The
  specification is the function `ArtistTracksOf`.

The catalog's answers are inputs to `GetTracksByArtist`, next to the query
and the `sanitize` flag:

- `topArtist`: the first artist of the top search hit
  (`search['artists'][0]`).
- `albums`: the artist's album list.
- `albumTracks`: the album-tracks call, as a function of the album id.
- `audioFeatures`: the audio-features call, as a function of the track id.

Behaviours of the code worth noting:

- The allow-list has eleven names, and `time_signature` is not one of them
  (web/tracks.py:77-78 and 90-91).
- `serializeTracks` raises no error. A payload key off the allow-list is
  simply not copied (web/tracks.py:77-83).
- After serialization the nested `audio_features` entry stays in the track;
  only copies of its allow-listed entries are added (web/tracks.py:79-83).
- `getTracksByArtist` filters albums unless the caller sets `sanitize` to
  false (web/tracks.py:26). `GetTracksByArtist` has the same default.

One consequence of the code, stated as a lemma: the sanitize test looks for
substrings, not words, so an album named "Alive" is skipped too
(`LiveInsideWordSkipped`).

## Model

| member | source | states |
|---|---|---|
| TrackData.ValidFeaturesDistinct | web/tracks.py:90-91 | the allow-list holds eleven distinct feature names |
| TrackData.NotValidFeatures | web/tracks.py:77-78 | `id`, `uri`, `time_signature`, `analysis_url`, `track_href`, `type`, `duration_ms` and `audio_features` are not on the allow-list |
| Strings.IsSubstring | web/tracks.py:45 | `sub in s` holds exactly when `sub` occurs in `s` at some position |
| Strings.LowerIdempotent | web/tracks.py:38 | lowering an already lowered string changes nothing |
| Strings.SameIgnoringCaseIff | web/tracks.py:38 | `a.lower() == b.lower()` exactly when the names have equal length and agree letter by letter after lowering |
| Strings.SameIgnoringCaseEquivalence | web/tracks.py:38 | the name comparison is reflexive, symmetric and transitive, and every spelling matches its lower-cased form |
| Serialization.FlattenSpec | web/tracks.py:77-83 | every allow-listed payload key is copied with its value; the key set grows by exactly the allow-listed payload keys; every key not copied keeps its value, including `audio_features` |
| Serialization.FlattenDropsUnlisted | web/tracks.py:82-83 | a payload key off the allow-list is neither added nor changed at the top level |
| Serialization.FlattenIdempotent | web/tracks.py:79-83 | serializing an already serialized track changes nothing |
| Serialization.FlattenAllIdempotent | web/tracks.py:79-85 | serializing a list twice equals serializing it once, with the same length and order |
| Serialization.FlattenTrack | web/tracks.py:80-83 | the inner loop leaves the track equal to `Flatten` of its old contents |
| Serialization.SerializeTracks | web/tracks.py:71-85 | returns the same list; every track in it, repeated ones included, ends up as `Flatten` of its old contents |
| FeatureSort.SortSorted | web/tracks.py:102 | the sort output is ascending by feature value |
| FeatureSort.SortPermutes | web/tracks.py:102 | the sort output is a permutation of its input, with the same length |
| FeatureSort.SortStable | web/tracks.py:102 | entries with the same feature value keep their input order |
| FeatureSort.SortedUnique | web/tracks.py:102 | two sorted sequences that agree on the entries for every feature value are equal |
| FeatureSort.SortIsTheStableSort | web/tracks.py:102 | every sorted, order-preserving arrangement of the input is the sort's output |
| FeatureSort.SortTracksByAudioFeature | web/tracks.py:88-103 | fails with `InvalidFeature` exactly when the feature is off the allow-list; otherwise returns one entry per track, sorted, stable, a permutation of the `{selected_feature, feature_value, name}` projections |
| ArtistTracks.SkippedSpec | web/tracks.py:44-47 | with sanitize off no album is skipped; with it on, exactly those with more than one artist or with `live` or `christmas` in the lower-cased name |
| ArtistTracks.LiveAlbumSkipped | web/tracks.py:44-47 | with sanitize on, "Live in Paris" is skipped; with it off, it is kept |
| ArtistTracks.LiveInsideWordSkipped | web/tracks.py:45 | with sanitize on, a single-artist album called "Alive" is skipped too |
| ArtistTracks.ReshapeSpec | web/tracks.py:49-65 | a reshaped track gains `artists`, `album`, `audio_features` and `external_url` with the stated values, loses `disc_number`, `available_markets` and `preview_url`, and keeps every other key |
| ArtistTracks.ContributionSpec | web/tracks.py:43-48 | a skipped album adds no track; a retained album adds as many tracks as its listing has |
| ArtistTracks.ContributionShape | web/tracks.py:48-66 | every track an album adds is built from that album |
| ArtistTracks.ArtistTracksLength | web/tracks.py:43-68 | the output length is the sum of the track counts of the retained albums; with sanitize off, of all albums |
| ArtistTracks.ArtistTracksAppend | web/tracks.py:43-66 | the output for two runs of albums is the first run's output followed by the second's |
| ArtistTracks.ArtistTracksSnoc | web/tracks.py:43-66 | one more album at the end appends its contribution at the end |
| ArtistTracks.ArtistTracksSplit | web/tracks.py:43-68 | album order: the tracks of album `i` come after those of all earlier albums and before those of all later ones, in listing order |
| ArtistTracks.ArtistTracksShape | web/tracks.py:49-66 | every output track comes from a retained album; it carries that album's first artist as `{name, id}` and `{name, id, image_url}` from its first image; it has the audio-feature payload of its id and `external_url = external_urls['spotify']`, and none of the three deleted keys |
| ArtistTracks.GetTracksByArtist | web/tracks.py:26-68 | `sanitize` defaults to on; fails with `NameMismatch` exactly when the top hit's first artist differs from the query ignoring case; otherwise returns `ArtistTracksOf` of the albums, whose length is the retained track count |

## Left out

- `TrackClient.__init__` (web/tracks.py:5-14): building the spotipy client and its credential manager belongs to a foreign library and to network authentication.
- `getTracksByAlbum` (web/tracks.py:16-24): a thin wrapper of two catalog calls (top album hit, then its tracks) with no logic of its own.
- The catalog calls `search`, `artist_albums`, `album_tracks` and `audio_features`: network I/O. Their answers are the parameters of `GetTracksByArtist`. The audio-feature payload is an arbitrary `Value`, and serialization requires it to be a dictionary, as `.items()` does.
- Exceptions from missing keys, empty lists, non-dictionary payloads or incomparable sort keys come from the shape of the catalog data. They are preconditions: `HasFeaturePayload`, `Projectable`, `FetchedTrack`, `ReshapableAlbum`, `WellFormedCatalog`. An album with no tracks never reads `artists[0]` or `images[0]`, so only albums with tracks must have them.
- `str.lower()` is modelled on ASCII letters only; Unicode case mapping is not modelled.
- Audio-feature values are JSON numbers modelled as integers. Float semantics, NaN included, are not modelled; only the order matters to the sort.
- `list.sort` is modelled by a stable insertion sort on values, not by Timsort in place. The sorted list is local to the call, so only the result is visible.
- `FeatureSort.SortTracksByAudioFeature`: the feature value in each record is the number itself, not the JSON value wrapping it.
- The dictionary iteration order of the payload in `serializeTracks` is not modelled: the loop takes the keys in any order, and the result does not depend on it.
- `ArtistTracks.GetTracksByArtist`: the fetched track dictionaries are fresh per call and referenced nowhere else. So the model reshapes them as values in a local map and returns new values. Identity and in-place change of those dictionaries are not modelled.
- web/models.py is not part of this model: it is a Django schema whose constraints the database enforces. (It names the field `liveliness` where the allow-list says `liveness`.)
