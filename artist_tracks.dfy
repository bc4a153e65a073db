/** The data-shaping body of `TrackClient.getTracksByArtist`: the name guard,
    the sanitize filter on albums, the reshaping of each fetched track and the
    accumulation in album-then-track order. The catalog's answers (the top
    search hit's first artist, the artist's albums, each album's tracks, each
    track's audio features) are parameters. */
module ArtistTracks {
  import opened TrackData
  import opened Strings

  datatype Artist = Artist(name: string, id: string)

  datatype Image = Image(url: string)

  /** One album of the artist, with its contributing artists and its cover
      images (the first one is the largest). */
  datatype Album = Album(id: string, name: string, artists: seq<Artist>, images: seq<Image>)

  /** The album-tracks call: the `items` of the listing for an album id. */
  type AlbumTracks = string -> seq<TrackMap>

  /** The audio-features call on a track id. */
  type AudioFeatures = Value -> Value

  /** The sanitize heuristic: with sanitize on, skip an album with more than
      one artist or whose lower-cased name contains "live" or "christmas". */
  predicate Skipped(album: Album, sanitize: bool)
  {
    sanitize &&
    (|album.artists| > 1 ||
     IsSubstring("live", Lower(album.name)) ||
     IsSubstring("christmas", Lower(album.name)))
  }

  /** A fetched track has what the reshaping reads and deletes. */
  predicate FetchedTrack(t: TrackMap)
  {
    && "id" in t
    && "external_urls" in t && t["external_urls"].Dict? && "spotify" in t["external_urls"].entries
    && "disc_number" in t && "available_markets" in t && "preview_url" in t
  }

  /** An album whose track list is reshaped: `album['artists'][0]` and
      `album['images'][0]` are read once per track, so they must exist as soon
      as there is a track. */
  predicate ReshapableAlbum(album: Album, tracks: seq<TrackMap>)
  {
    && (|tracks| > 0 ==> |album.artists| > 0 && |album.images| > 0)
    && forall j :: 0 <= j < |tracks| ==> FetchedTrack(tracks[j])
  }

  /** Every album that is not skipped has a reshapable track list. */
  predicate WellFormedCatalog(albums: seq<Album>, sanitize: bool, albumTracks: AlbumTracks)
  {
    forall album :: album in albums && !Skipped(album, sanitize) ==>
      ReshapableAlbum(album, albumTracks(album.id))
  }

  /** `artist_data`: the album's first artist. */
  function ArtistData(a: Artist): Value
  {
    Dict(map["name" := Str(a.name), "id" := Str(a.id)])
  }

  /** `album_data`: the album's name, id and first image. */
  function AlbumData(album: Album): Value
    requires |album.images| > 0
  {
    Dict(map["name" := Str(album.name), "id" := Str(album.id), "image_url" := Str(album.images[0].url)])
  }

  /** The keys `getTracksByArtist` deletes from every track. */
  const Deleted: set<string> := {"disc_number", "available_markets", "preview_url"}

  /** The keys `getTracksByArtist` sets on every track. */
  const Added: set<string> := {"artists", "album", "audio_features", "external_url"}

  /** One fetched track after reshaping, given its audio-feature payload. */
  function Reshape(t: TrackMap, album: Album, payload: Value): TrackMap
    requires FetchedTrack(t) && |album.artists| > 0 && |album.images| > 0
  {
    t["artists" := ArtistData(album.artists[0])]
     ["album" := AlbumData(album)]
     ["audio_features" := payload]
     ["external_url" := t["external_urls"].entries["spotify"]]
    - Deleted
  }

  /** What reshaping does to one track: it gains flat `artists`, `album`,
      `audio_features` and `external_url` entries, loses the three noise keys,
      and every other key keeps its value. */
  lemma ReshapeSpec(t: TrackMap, album: Album, payload: Value)
    requires FetchedTrack(t) && |album.artists| > 0 && |album.images| > 0
    ensures Reshape(t, album, payload).Keys == (t.Keys + Added) - Deleted
    ensures Reshape(t, album, payload)["artists"] == ArtistData(album.artists[0])
    ensures Reshape(t, album, payload)["album"] == AlbumData(album)
    ensures Reshape(t, album, payload)["audio_features"] == payload
    ensures Reshape(t, album, payload)["external_url"] == t["external_urls"].entries["spotify"]
    ensures forall k :: k in t && k !in Added && k !in Deleted ==> Reshape(t, album, payload)[k] == t[k]
  {
  }

  /** An album's track list after reshaping, in the listing's order. */
  function ReshapeAll(tracks: seq<TrackMap>, album: Album, audioFeatures: AudioFeatures): (r: seq<TrackMap>)
    requires ReshapableAlbum(album, tracks)
    ensures |r| == |tracks|
  {
    seq(|tracks|, j requires 0 <= j < |tracks| => Reshape(tracks[j], album, audioFeatures(tracks[j]["id"])))
  }

  /** What one album adds to the output. */
  function Contribution(album: Album, sanitize: bool, albumTracks: AlbumTracks, audioFeatures: AudioFeatures): seq<TrackMap>
    requires !Skipped(album, sanitize) ==> ReshapableAlbum(album, albumTracks(album.id))
  {
    if Skipped(album, sanitize) then [] else ReshapeAll(albumTracks(album.id), album, audioFeatures)
  }

  /** The output for a list of albums, built album by album from the front. */
  function ArtistTracksOf(albums: seq<Album>, sanitize: bool, albumTracks: AlbumTracks, audioFeatures: AudioFeatures): seq<TrackMap>
    requires WellFormedCatalog(albums, sanitize, albumTracks)
    decreases |albums|
  {
    if albums == [] then []
    else
      var last := albums[|albums| - 1];
      assert last in albums;
      ArtistTracksOf(albums[..|albums| - 1], sanitize, albumTracks, audioFeatures)
        + Contribution(last, sanitize, albumTracks, audioFeatures)
  }

  /** The number of tracks over the albums that are not skipped. */
  function RetainedTrackCount(albums: seq<Album>, sanitize: bool, albumTracks: AlbumTracks): nat
    decreases |albums|
  {
    if albums == [] then 0
    else
      var last := albums[|albums| - 1];
      RetainedTrackCount(albums[..|albums| - 1], sanitize, albumTracks)
        + (if Skipped(last, sanitize) then 0 else |albumTracks(last.id)|)
  }

  /** The number of tracks over all albums. */
  function TotalTrackCount(albums: seq<Album>, albumTracks: AlbumTracks): nat
    decreases |albums|
  {
    if albums == [] then 0
    else TotalTrackCount(albums[..|albums| - 1], albumTracks) + |albumTracks(albums[|albums| - 1].id)|
  }

  /** The output length is the sum of the track counts of the retained
      albums; with sanitize off, of all albums. */
  lemma {:induction false} ArtistTracksLength(albums: seq<Album>, sanitize: bool, albumTracks: AlbumTracks, audioFeatures: AudioFeatures)
    requires WellFormedCatalog(albums, sanitize, albumTracks)
    ensures |ArtistTracksOf(albums, sanitize, albumTracks, audioFeatures)| == RetainedTrackCount(albums, sanitize, albumTracks)
    ensures !sanitize ==> RetainedTrackCount(albums, sanitize, albumTracks) == TotalTrackCount(albums, albumTracks)
    decreases |albums|
  {
    if albums != [] {
      var init := albums[..|albums| - 1];
      assert forall album :: album in init ==> album in albums;
      ArtistTracksLength(init, sanitize, albumTracks, audioFeatures);
    }
  }

  /** Well-formedness carries over to any list drawn from the same albums. */
  lemma CatalogSublist(xs: seq<Album>, ys: seq<Album>, sanitize: bool, albumTracks: AlbumTracks)
    requires WellFormedCatalog(ys, sanitize, albumTracks)
    requires forall album :: album in xs ==> album in ys
    ensures WellFormedCatalog(xs, sanitize, albumTracks)
  {
  }

  /** Adding one album at the end adds its contribution at the end. */
  lemma ArtistTracksSnoc(xs: seq<Album>, x: Album, sanitize: bool, albumTracks: AlbumTracks, audioFeatures: AudioFeatures)
    requires WellFormedCatalog(xs + [x], sanitize, albumTracks)
    ensures WellFormedCatalog(xs, sanitize, albumTracks)
    ensures !Skipped(x, sanitize) ==> ReshapableAlbum(x, albumTracks(x.id))
    ensures ArtistTracksOf(xs + [x], sanitize, albumTracks, audioFeatures) ==
              ArtistTracksOf(xs, sanitize, albumTracks, audioFeatures) + Contribution(x, sanitize, albumTracks, audioFeatures)
  {
    var ys := xs + [x];
    assert ys[..|ys| - 1] == xs;
    assert ys[|ys| - 1] == x;
    CatalogSublist(xs, ys, sanitize, albumTracks);
  }

  /** The output for two runs of albums is the output for the first followed
      by the output for the second. */
  lemma {:induction false} ArtistTracksAppend(a: seq<Album>, b: seq<Album>, sanitize: bool, albumTracks: AlbumTracks, audioFeatures: AudioFeatures)
    requires WellFormedCatalog(a + b, sanitize, albumTracks)
    ensures WellFormedCatalog(a, sanitize, albumTracks) && WellFormedCatalog(b, sanitize, albumTracks)
    ensures ArtistTracksOf(a + b, sanitize, albumTracks, audioFeatures) ==
              ArtistTracksOf(a, sanitize, albumTracks, audioFeatures) + ArtistTracksOf(b, sanitize, albumTracks, audioFeatures)
    decreases |b|
  {
    CatalogSublist(a, a + b, sanitize, albumTracks);
    CatalogSublist(b, a + b, sanitize, albumTracks);
    if b == [] {
      assert a + b == a;
    } else {
      var initB, lastB := b[..|b| - 1], b[|b| - 1];
      assert b == initB + [lastB];
      assert a + b == (a + initB) + [lastB];
      ArtistTracksSnoc(a + initB, lastB, sanitize, albumTracks, audioFeatures);
      ArtistTracksSnoc(initB, lastB, sanitize, albumTracks, audioFeatures);
      ArtistTracksAppend(a, initB, sanitize, albumTracks, audioFeatures);
    }
  }

  /** Album order: the tracks of album `i` come after those of every earlier
      album and before those of every later one. */
  lemma ArtistTracksSplit(albums: seq<Album>, i: int, sanitize: bool, albumTracks: AlbumTracks, audioFeatures: AudioFeatures)
    requires WellFormedCatalog(albums, sanitize, albumTracks)
    requires 0 <= i < |albums|
    ensures WellFormedCatalog(albums[..i], sanitize, albumTracks)
    ensures WellFormedCatalog(albums[i + 1..], sanitize, albumTracks)
    ensures !Skipped(albums[i], sanitize) ==> ReshapableAlbum(albums[i], albumTracks(albums[i].id))
    ensures ArtistTracksOf(albums, sanitize, albumTracks, audioFeatures) ==
              ArtistTracksOf(albums[..i], sanitize, albumTracks, audioFeatures)
              + Contribution(albums[i], sanitize, albumTracks, audioFeatures)
              + ArtistTracksOf(albums[i + 1..], sanitize, albumTracks, audioFeatures)
  {
    assert albums == albums[..i + 1] + albums[i + 1..];
    ArtistTracksAppend(albums[..i + 1], albums[i + 1..], sanitize, albumTracks, audioFeatures);
    assert albums[..i + 1][..i] == albums[..i];
    assert albums[..i + 1][i] == albums[i];
  }

  /** `t` is an output track built from `album`: it carries the album's first
      artist and its album data, the payload the audio-features call gives for
      its id, its external URL, and none of the deleted keys. */
  predicate FromAlbum(t: TrackMap, album: Album, sanitize: bool, audioFeatures: AudioFeatures)
  {
    && !Skipped(album, sanitize) && |album.artists| > 0 && |album.images| > 0
    && t.Keys !! Deleted
    && Added <= t.Keys && "id" in t && "external_urls" in t
    && t["artists"] == ArtistData(album.artists[0])
    && t["album"] == AlbumData(album)
    && t["audio_features"] == audioFeatures(t["id"])
    && t["external_urls"].Dict? && "spotify" in t["external_urls"].entries
    && t["external_url"] == t["external_urls"].entries["spotify"]
  }

  /** Every track an album contributes is built from that album. */
  lemma ContributionShape(album: Album, sanitize: bool, albumTracks: AlbumTracks, audioFeatures: AudioFeatures, j: int)
    requires !Skipped(album, sanitize) ==> ReshapableAlbum(album, albumTracks(album.id))
    requires 0 <= j < |Contribution(album, sanitize, albumTracks, audioFeatures)|
    ensures FromAlbum(Contribution(album, sanitize, albumTracks, audioFeatures)[j], album, sanitize, audioFeatures)
  {
    var t := albumTracks(album.id)[j];
    ReshapeSpec(t, album, audioFeatures(t["id"]));
  }

  /** Every output track is a reshaped track of an album that is not skipped. */
  lemma {:induction false} ArtistTracksShape(albums: seq<Album>, sanitize: bool, albumTracks: AlbumTracks, audioFeatures: AudioFeatures, k: int)
    requires WellFormedCatalog(albums, sanitize, albumTracks)
    requires 0 <= k < |ArtistTracksOf(albums, sanitize, albumTracks, audioFeatures)|
    ensures exists album :: album in albums &&
              FromAlbum(ArtistTracksOf(albums, sanitize, albumTracks, audioFeatures)[k], album, sanitize, audioFeatures)
    decreases |albums|
  {
    var init, last := albums[..|albums| - 1], albums[|albums| - 1];
    assert albums == init + [last];
    ArtistTracksSnoc(init, last, sanitize, albumTracks, audioFeatures);
    var before := ArtistTracksOf(init, sanitize, albumTracks, audioFeatures);
    var out := ArtistTracksOf(albums, sanitize, albumTracks, audioFeatures);
    if k < |before| {
      ArtistTracksShape(init, sanitize, albumTracks, audioFeatures, k);
      var album :| album in init && FromAlbum(before[k], album, sanitize, audioFeatures);
      assert out[k] == before[k];
      assert album in albums;
    } else {
      ContributionShape(last, sanitize, albumTracks, audioFeatures, k - |before|);
      assert last in albums;
    }
  }

  /** The sanitize filter on its own: with sanitize off nothing is skipped;
      with it on, exactly the albums with several artists or with "live" or
      "christmas" in their name, in any capitalisation. */
  lemma SkippedSpec(album: Album, sanitize: bool)
    ensures !sanitize ==> !Skipped(album, sanitize)
    ensures sanitize ==>
              (Skipped(album, sanitize) <==>
                 |album.artists| > 1 ||
                 (exists i :: OccursAt("live", Lower(album.name), i)) ||
                 (exists i :: OccursAt("christmas", Lower(album.name), i)))
  {
    var l := Lower(album.name);
    if IsSubstring("live", l) {
      var i :| OccursAt("live", l, i);
      assert OccursAt("live", Lower(album.name), i);
    }
    if IsSubstring("christmas", l) {
      var i :| OccursAt("christmas", l, i);
      assert OccursAt("christmas", Lower(album.name), i);
    }
  }

  /** A skipped album contributes no track; a retained one contributes all of
      its tracks. */
  lemma ContributionSpec(album: Album, sanitize: bool, albumTracks: AlbumTracks, audioFeatures: AudioFeatures)
    requires !Skipped(album, sanitize) ==> ReshapableAlbum(album, albumTracks(album.id))
    ensures Skipped(album, sanitize) ==> Contribution(album, sanitize, albumTracks, audioFeatures) == []
    ensures !Skipped(album, sanitize) ==>
              |Contribution(album, sanitize, albumTracks, audioFeatures)| == |albumTracks(album.id)|
  {
  }

  /** With sanitize on, a live album such as "Live in Paris" is skipped; with
      it off, it is kept. */
  lemma LiveAlbumSkipped(album: Album)
    requires album.name == "Live in Paris"
    ensures Skipped(album, true)
    ensures !Skipped(album, false)
  {
    assert Lower(album.name)[..4] == "live";
  }

  /** The test is on substrings, not words: with sanitize on, a single-artist
      album named "Alive" is skipped as well. */
  lemma LiveInsideWordSkipped(album: Album)
    requires album.name == "Alive" && |album.artists| == 1
    ensures Skipped(album, true)
  {
    assert OccursAt("live", Lower(album.name), 1);
  }

  /** One more album of the loop. */
  lemma ArtistTracksPrefixStep(albums: seq<Album>, i: int, sanitize: bool, albumTracks: AlbumTracks, audioFeatures: AudioFeatures)
    requires WellFormedCatalog(albums, sanitize, albumTracks)
    requires 0 <= i < |albums|
    ensures WellFormedCatalog(albums[..i], sanitize, albumTracks)
    ensures WellFormedCatalog(albums[..i + 1], sanitize, albumTracks)
    ensures !Skipped(albums[i], sanitize) ==> ReshapableAlbum(albums[i], albumTracks(albums[i].id))
    ensures ArtistTracksOf(albums[..i + 1], sanitize, albumTracks, audioFeatures) ==
              ArtistTracksOf(albums[..i], sanitize, albumTracks, audioFeatures)
              + Contribution(albums[i], sanitize, albumTracks, audioFeatures)
  {
    assert albums[..i + 1] == albums[..i] + [albums[i]];
    CatalogSublist(albums[..i + 1], albums, sanitize, albumTracks);
    ArtistTracksSnoc(albums[..i], albums[i], sanitize, albumTracks, audioFeatures);
  }

  /** One more track of the inner loop. */
  lemma ReshapeAllPrefixStep(tracks: seq<TrackMap>, j: int, album: Album, audioFeatures: AudioFeatures)
    requires ReshapableAlbum(album, tracks)
    requires 0 <= j < |tracks|
    ensures ReshapableAlbum(album, tracks[..j]) && ReshapableAlbum(album, tracks[..j + 1])
    ensures ReshapeAll(tracks[..j + 1], album, audioFeatures) ==
              ReshapeAll(tracks[..j], album, audioFeatures) + [Reshape(tracks[j], album, audioFeatures(tracks[j]["id"]))]
  {
  }

  /** `getTracksByArtist(query, sanitize)` after the catalog calls. It fails
      with a name mismatch exactly when the top hit's first artist differs
      from the query ignoring case; otherwise it returns the reshaped tracks
      of the retained albums, in album-then-track order. As in the client,
      `sanitize` is on unless the caller turns it off. */
  method GetTracksByArtist(query: string, topArtist: Artist, albums: seq<Album>,
                           albumTracks: AlbumTracks, audioFeatures: AudioFeatures,
                           sanitize: bool := true)
    returns (r: Result<seq<TrackMap>>)
    requires SameIgnoringCase(topArtist.name, query) ==> WellFormedCatalog(albums, sanitize, albumTracks)
    ensures r.Failure? <==> !SameIgnoringCase(topArtist.name, query)
    ensures r.Failure? ==> r.error == NameMismatch
    ensures r.Success? ==>
              && r.value == ArtistTracksOf(albums, sanitize, albumTracks, audioFeatures)
              && |r.value| == RetainedTrackCount(albums, sanitize, albumTracks)
  {
    var artistTracks: seq<TrackMap> := [];
    if Lower(topArtist.name) != Lower(query) {
      return Failure(NameMismatch);
    }
    for i := 0 to |albums|
      invariant WellFormedCatalog(albums[..i], sanitize, albumTracks)
      invariant artistTracks == ArtistTracksOf(albums[..i], sanitize, albumTracks, audioFeatures)
    {
      var album := albums[i];
      ArtistTracksPrefixStep(albums, i, sanitize, albumTracks, audioFeatures);
      if sanitize {
        if |album.artists| > 1 || IsSubstring("live", Lower(album.name)) || IsSubstring("christmas", Lower(album.name)) {
          continue;
        }
      }
      var tracks := albumTracks(album.id);
      for j := 0 to |tracks|
        invariant ReshapableAlbum(album, tracks[..j])
        invariant artistTracks ==
                    ArtistTracksOf(albums[..i], sanitize, albumTracks, audioFeatures)
                    + ReshapeAll(tracks[..j], album, audioFeatures)
      {
        ReshapeAllPrefixStep(tracks, j, album, audioFeatures);
        var track := tracks[j];
        var artistData := Dict(map["name" := Str(album.artists[0].name), "id" := Str(album.artists[0].id)]);
        var albumData := Dict(map["name" := Str(album.name), "id" := Str(album.id), "image_url" := Str(album.images[0].url)]);
        track := track["artists" := artistData];
        track := track["album" := albumData];
        track := track["audio_features" := audioFeatures(track["id"])];
        track := track["external_url" := track["external_urls"].entries["spotify"]];
        track := track - {"disc_number"};
        track := track - {"available_markets"};
        track := track - {"preview_url"};
        assert track == Reshape(tracks[j], album, audioFeatures(tracks[j]["id"]));
        artistTracks := artistTracks + [track];
      }
      assert tracks[..|tracks|] == tracks;
    }
    assert albums[..|albums|] == albums;
    ArtistTracksLength(albums, sanitize, albumTracks, audioFeatures);
    r := Success(artistTracks);
  }
}
