/**
 * `MusicLibrary`: the build of the library index from the catalog records
 * (`__aggregate_albums`), the playlists it loads afterwards, and the
 * lookups the filesystem makes.
 */
module Library {
  import opened Wrappers
  import opened Names
  import opened Tags
  import opened Albums
  import opened Catalog
  import opened Playlists
  import opened DiscSplit
  import opened Maps
  import opened Paths

  // ---------------------------------------------------------------------
  // Grouping, as a function of the prepared records

  /** `all_artist_albums` as values: each album key with the records
      filed under it, in the order they come. */
  function Groups(ps: seq<Prepared>): (g: map<string, seq<TrackInfo>>)
    ensures forall k :: k in g ==> g[k] != []
  {
    if ps == [] then map[]
    else
      var g := Groups(ps[..|ps| - 1]);
      var p := ps[|ps| - 1];
      g[p.key := (if p.key in g then g[p.key] else []) + [p.info]]
  }

  /** The records with key `k`, in the order they come: the reference the
      grouping is checked against. */
  function Under(ps: seq<Prepared>, k: string): seq<TrackInfo>
  {
    if ps == [] then []
    else Under(ps[..|ps| - 1], k) + (if ps[|ps| - 1].key == k then [ps[|ps| - 1].info] else [])
  }

  /** The album keys in the order they first occur: the order in which the
      build creates the albums. */
  function Order(ps: seq<Prepared>): (o: seq<string>)
    ensures forall k :: k in o ==> k in Groups(ps)
  {
    if ps == [] then []
    else
      var o := Order(ps[..|ps| - 1]);
      if ps[|ps| - 1].key in Groups(ps[..|ps| - 1]) then o else o + [ps[|ps| - 1].key]
  }

  /** The artist index the build makes, as keys: album artist -> formatted
      title -> key of the album filed there. A new album is filed under its
      artist's map when that map exists and is not empty, and under a new
      map otherwise; a later album of the same artist and title takes the
      place of an earlier one. */
  function Index(ps: seq<Prepared>): (ix: map<string, map<string, string>>)
    ensures forall a, t :: a in ix && t in ix[a] ==> ix[a][t] in Groups(ps)
  {
    if ps == [] then map[]
    else
      var init := ps[..|ps| - 1];
      var ix := Index(init);
      var p := ps[|ps| - 1];
      if p.key in Groups(init) then ix else File(ix, p.info.albumArtist, FormatNames(p.info.album), p.key)
  }

  /** Filing one more record appends it to the group of its key. */
  lemma GroupsAppend(ps: seq<Prepared>, p: Prepared)
    ensures Groups(ps + [p]) == Groups(ps)[p.key := (if p.key in Groups(ps) then Groups(ps)[p.key] else []) + [p.info]]
  {
    assert (ps + [p])[..|ps|] == ps;
  }

  /** Filing one more record opens an album, and files it in the artist
      index, exactly when its key is new. */
  lemma PreparedAppend(ps: seq<Prepared>, p: Prepared)
    ensures Order(ps + [p]) == if p.key in Groups(ps) then Order(ps) else Order(ps) + [p.key]
    ensures Index(ps + [p]) == if p.key in Groups(ps) then Index(ps)
                               else File(Index(ps), p.info.albumArtist, FormatNames(p.info.album), p.key)
  {
    assert (ps + [p])[..|ps|] == ps;
  }

  /** The grouping agrees with the reference: a key is present exactly
      when some record carries it, and it holds exactly the records that
      carry it, in order. */
  lemma {:induction false} GroupsUnder(ps: seq<Prepared>, k: string)
    ensures k in Groups(ps) <==> Under(ps, k) != []
    ensures k in Groups(ps) ==> Groups(ps)[k] == Under(ps, k)
    decreases |ps|
  {
    if ps != [] {
      GroupsUnder(ps[..|ps| - 1], k);
    }
  }

  /** The creation order lists every key once. */
  lemma {:induction false} OrderKeys(ps: seq<Prepared>)
    ensures forall k :: k in Order(ps) <==> k in Groups(ps)
    ensures forall i, j :: 0 <= i < j < |Order(ps)| ==> Order(ps)[i] != Order(ps)[j]
    decreases |ps|
  {
    if ps != [] {
      OrderKeys(ps[..|ps| - 1]);
    }
  }

  /** The disc list after `add_track` takes a track carrying `info`. */
  function AddDisc(discs: seq<int>, info: TrackInfo): seq<int>
  {
    if info.discNumber.Some? && info.discNumber.value !in discs then discs + [info.discNumber.value] else discs
  }

  lemma DiscsOfAppend(s: seq<TrackInfo>, info: TrackInfo)
    ensures DiscsOf(s + [info]) == AddDisc(DiscsOf(s), info)
  {
    assert (s + [info])[..|s|] == s;
  }

  /** The track lists hold the records of `ps`, grouped by album key, and
      the disc lists are the ones their tracks give. */
  ghost predicate Tracks(groups: map<string, seq<Track>>, ds: map<string, seq<int>>, ps: seq<Prepared>)
  {
    var g := Groups(ps);
    groups.Keys == g.Keys && ds.Keys == g.Keys
    && forall k :: k in groups ==> Infos(groups[k]) == g[k] && ds[k] == DiscsOf(g[k])
  }

  /** A record joins the track list of its key. */
  lemma TracksJoin(groups: map<string, seq<Track>>, ds: map<string, seq<int>>, ps: seq<Prepared>, p: Prepared, t: Track)
    requires Tracks(groups, ds, ps) && p.key in groups && t.info == p.info
    ensures Tracks(groups[p.key := groups[p.key] + [t]], ds[p.key := AddDisc(ds[p.key], p.info)], ps + [p])
  {
    GroupsAppend(ps, p);
    InfosAppend(groups[p.key], t);
    DiscsOfAppend(Groups(ps)[p.key], p.info);
    var g, g' := Groups(ps), Groups(ps + [p]);
    var groups', ds' := groups[p.key := groups[p.key] + [t]], ds[p.key := AddDisc(ds[p.key], p.info)];
    assert g' == g[p.key := g[p.key] + [p.info]];
    assert groups'.Keys == g'.Keys && ds'.Keys == g'.Keys;
    forall k | k in groups'
      ensures Infos(groups'[k]) == g'[k] && ds'[k] == DiscsOf(g'[k])
    {
      if k != p.key {
        assert groups'[k] == groups[k] && ds'[k] == ds[k] && g'[k] == g[k];
      }
    }
  }

  /** A record with a new key starts a track list of its own. */
  lemma TracksNew(groups: map<string, seq<Track>>, ds: map<string, seq<int>>, ps: seq<Prepared>, p: Prepared,
                  ts: seq<Track>, d: seq<int>)
    requires Tracks(groups, ds, ps) && p.key !in groups && Infos(ts) == [p.info] && d == DiscsOf([p.info])
    ensures Tracks(groups[p.key := ts], ds[p.key := d], ps + [p])
  {
    GroupsAppend(ps, p);
    var g, g' := Groups(ps), Groups(ps + [p]);
    var groups', ds' := groups[p.key := ts], ds[p.key := d];
    assert p.key !in g;
    assert g' == g[p.key := [p.info]] by {
      assert [] + [p.info] == [p.info];
    }
    assert groups'.Keys == g'.Keys && ds'.Keys == g'.Keys;
    forall k | k in groups'
      ensures Infos(groups'[k]) == g'[k] && ds'[k] == DiscsOf(g'[k])
    {
      if k != p.key {
        assert groups'[k] == groups[k] && ds'[k] == ds[k] && g'[k] == g[k];
      }
    }
  }

  /** The album carries the album, album artist and year of `info`. */
  predicate Heads(a: Album, info: TrackInfo)
  {
    a.album == info.album && a.artist == info.albumArtist && a.year == info.year
  }

  /** `all_artist_albums` holds, under each key, an album whose tracks and
      disc list are those the ghost maps give for that key, and which
      carries the album, album artist and year of its first track. */
  ghost predicate Filled(all: map<string, Album>, groups: map<string, seq<Track>>, ds: map<string, seq<int>>)
    reads all.Values
  {
    all.Keys == groups.Keys && ds.Keys == groups.Keys
    && (forall k :: k in all ==> all[k].tracks == groups[k] && all[k].discs == ds[k])
    && (forall k :: k in all ==> groups[k] != [] && Heads(all[k], groups[k][0].info))
  }

  /** Every album of a filled map satisfies the album invariant. */
  lemma FilledValid(all: map<string, Album>, groups: map<string, seq<Track>>, ds: map<string, seq<int>>,
                    ps: seq<Prepared>, k: string)
    requires Filled(all, groups, ds) && Tracks(groups, ds, ps) && k in all
    ensures all[k].Valid()
  {
  }

  /** The album of `key` took the track `t`, and no other album changed. */
  lemma FilledJoin(all: map<string, Album>, groups: map<string, seq<Track>>, ds: map<string, seq<int>>, key: string,
                   t: Track, d: seq<int>)
    requires all.Keys == groups.Keys && ds.Keys == groups.Keys && key in all
    requires forall k :: k in all && k != key ==> all[k].tracks == groups[k] && all[k].discs == ds[k]
    requires all[key].tracks == groups[key] + [t] && all[key].discs == d
    requires forall k :: k in all ==> groups[k] != [] && Heads(all[k], groups[k][0].info)
    ensures Filled(all, groups[key := groups[key] + [t]], ds[key := d])
  {
    var groups': map<string, seq<Track>> := groups[key := groups[key] + [t]];
    var ds' := ds[key := d];
    assert groups'.Keys == groups.Keys && ds'.Keys == ds.Keys;
    forall k | k in all
      ensures all[k].tracks == groups'[k] && all[k].discs == ds'[k]
    {
      if k != key {
        assert groups'[k] == groups[k] && ds'[k] == ds[k];
      }
    }
    forall k | k in all
      ensures groups'[k] != [] && Heads(all[k], groups'[k][0].info)
    {
      if k == key {
        assert groups'[k][0] == groups[k][0];
      } else {
        assert groups'[k] == groups[k];
      }
    }
  }

  /** A new album joins the map under a new key. */
  lemma FilledNew(all: map<string, Album>, groups: map<string, seq<Track>>, ds: map<string, seq<int>>, key: string,
                  album: Album)
    requires Filled(all, groups, ds) && key !in all
    requires album.tracks != [] && Heads(album, album.tracks[0].info)
    ensures Filled(all[key := album], groups[key := album.tracks], ds[key := album.discs])
  {
  }

  /** Filing a record under a key that already has an album leaves the
      artist index and the album list as they were. */
  lemma KnownKeyIndex<V>(all: map<string, V>, artists: map<string, map<string, V>>, albums: seq<V>,
                         ps: seq<Prepared>, p: Prepared)
    requires p.key in Groups(ps)
    requires Mirrors(artists, Index(ps), all) && Follows(albums, Order(ps), all)
    ensures Mirrors(artists, Index(ps + [p]), all) && Follows(albums, Order(ps + [p]), all)
  {
    PreparedAppend(ps, p);
  }

  /** Filing a record under a new key: its album `v` joins the map, the
      album list and the artist index. */
  lemma NewKeyIndex<V>(all: map<string, V>, artists: map<string, map<string, V>>, albums: seq<V>,
                       ps: seq<Prepared>, p: Prepared, v: V)
    requires p.key !in all && all.Keys == Groups(ps).Keys && forall k :: k in all ==> all[k] != v
    requires Injective(all) && Mirrors(artists, Index(ps), all) && Follows(albums, Order(ps), all)
    ensures Injective(all[p.key := v])
    ensures Mirrors(File(artists, p.info.albumArtist, FormatNames(p.info.album), v), Index(ps + [p]), all[p.key := v])
    ensures Follows(albums + [v], Order(ps + [p]), all[p.key := v])
  {
    PreparedAppend(ps, p);
    InjectiveAdd(all, p.key, v);
    MirrorsFile(artists, Index(ps), all, p.info.albumArtist, FormatNames(p.info.album), p.key, v);
    FollowsAppend(albums, Order(ps), all, p.key, v);
  }

  /** A record whose key has an album already: a track made from it joins
      that album, and no other album changes. */
  method AddToAlbum(p: Prepared, album: Album, all: map<string, Album>, ghost groups: map<string, seq<Track>>,
                    ghost ds: map<string, seq<int>>)
      returns (ghost t: Track)
    requires Filled(all, groups, ds) && Injective(all) && p.key in all && all[p.key] == album && album.Valid()
    modifies album
    ensures forall k :: k in all && k != p.key ==> all[k].tracks == groups[k] && all[k].discs == ds[k]
    ensures album.tracks == groups[p.key] + [t] && album.discs == AddDisc(ds[p.key], p.info) && t.info == p.info
  {
    var track := new Track(p.info);
    album.AddTrack(track);
    t := track;
  }

  /** A record with a new key gets a new album, created from it, holding a
      track made from it; the album goes to the end of the album list and is
      filed under its album artist and formatted title. */
  method AddAlbum(p: Prepared, artists: map<string, map<string, Album>>, albums: seq<Album>)
      returns (album: Album, artists': map<string, map<string, Album>>, albums': seq<Album>)
    ensures fresh(album) && Infos(album.tracks) == [p.info] && album.discs == DiscsOf([p.info])
    ensures Heads(album, p.info) && album.normtitle == FormatNames(p.info.album)
    ensures artists' == File(artists, p.info.albumArtist, FormatNames(p.info.album), album)
    ensures albums' == albums + [album]
  {
    album := new Album(FormatNames(p.info.album), p.info.albumArtist, p.info.album, p.info.year);
    FormatNamesIdempotent(p.info.album);
    var t := new Track(p.info);
    album.AddTrack(t);
    InfosAppend([], t);
    albums' := albums + [album];
    if p.info.albumArtist in artists && artists[p.info.albumArtist] != map[] {
      artists' := artists[p.info.albumArtist := artists[p.info.albumArtist][FormatNames(album.normtitle) := album]];
    } else {
      artists' := artists[p.info.albumArtist := map[album.normtitle := album]];
    }
  }

  /** The state the grouping keeps after filing the records `ps`:
      `all` is `all_artist_albums`, `groups` and `ds` the track list and
      disc list of each key, `artists` and `albums` the library's artist
      index and album list. */
  ghost predicate Indexed(all: map<string, Album>, groups: map<string, seq<Track>>, ds: map<string, seq<int>>,
                          artists: map<string, map<string, Album>>, albums: seq<Album>, ps: seq<Prepared>)
    reads all.Values
  {
    Filled(all, groups, ds) && Tracks(groups, ds, ps) && Injective(all)
    && Mirrors(artists, Index(ps), all) && Follows(albums, Order(ps), all)
  }

  /** One record through the second half of the build loop: it joins the
      album of its key, or creates that album. Only albums of the map
      change, and every album in the new map was there or is new. */
  method FileRecord(p: Prepared, all: map<string, Album>, artists: map<string, map<string, Album>>, albums: seq<Album>,
                    ghost groups: map<string, seq<Track>>, ghost ds: map<string, seq<int>>, ghost ps: seq<Prepared>)
      returns (all': map<string, Album>, artists': map<string, map<string, Album>>, albums': seq<Album>,
               ghost groups': map<string, seq<Track>>, ghost ds': map<string, seq<int>>)
    requires Indexed(all, groups, ds, artists, albums, ps)
    modifies all.Values
    ensures Indexed(all', groups', ds', artists', albums', ps + [p])
    ensures p.key in all ==> all' == all
    ensures p.key !in all ==> p.key in all' && all' == all[p.key := all'[p.key]] && fresh(all'[p.key])
  {
    if p.key in all {
      FilledValid(all, groups, ds, ps, p.key);
      ghost var t := AddToAlbum(p, all[p.key], all, groups, ds);
      KnownKeyIndex(all, artists, albums, ps, p);
      TracksJoin(groups, ds, ps, p, t);
      FilledJoin(all, groups, ds, p.key, t, AddDisc(ds[p.key], p.info));
      all', artists', albums' := all, artists, albums;
      groups', ds' := groups[p.key := groups[p.key] + [t]], ds[p.key := AddDisc(ds[p.key], p.info)];
    } else {
      var album;
      album, artists', albums' := AddAlbum(p, artists, albums);
      NewKeyIndex(all, artists, albums, ps, p, album);
      TracksNew(groups, ds, ps, p, album.tracks, album.discs);
      FilledNew(all, groups, ds, p.key, album);
      all', groups', ds' := all[p.key := album], groups[p.key := album.tracks], ds[p.key := album.discs];
    }
  }

  /** The first half of the build loop over every record, in order:
      `None` when some record cannot be processed. */
  method PrepareAll(records: seq<Record>, albumInfo: map<string, Record>, artistInfo: map<string, Record>,
                    cleanupName: (string, seq<string>) -> (string, seq<string>))
      returns (r: Option<seq<Prepared>>)
    ensures r.Some? <==> forall i :: 0 <= i < |records| ==> Prepare(records[i], albumInfo, artistInfo, cleanupName).Some?
    ensures r.Some? ==> |r.value| == |records|
    ensures r.Some? ==> forall i :: 0 <= i < |records| ==> Prepare(records[i], albumInfo, artistInfo, cleanupName) == Some(r.value[i])
  {
    var ps: seq<Prepared> := [];
    var i := 0;
    while i < |records|
      invariant 0 <= i <= |records| && |ps| == i
      invariant forall j :: 0 <= j < i ==> Prepare(records[j], albumInfo, artistInfo, cleanupName) == Some(ps[j])
    {
      var prepared := Prepare(records[i], albumInfo, artistInfo, cleanupName);
      if prepared.None? {
        return None;
      }
      ps := ps + [prepared.value];
      i := i + 1;
    }
    return Some(ps);
  }

  /** The grouping half of `__aggregate_albums`, once every record is
      prepared: each is filed under its album key, and the first record of a
      key creates its album. Only new albums are created or changed. */
  method GroupAll(ps: seq<Prepared>)
      returns (all: map<string, Album>, artists: map<string, map<string, Album>>, albums: seq<Album>,
               ghost groups: map<string, seq<Track>>, ghost ds: map<string, seq<int>>)
    ensures Indexed(all, groups, ds, artists, albums, ps)
    ensures forall k :: k in all ==> fresh(all[k])
  {
    all, artists, albums := map[], map[], [];
    groups, ds := map[], map[];
    ghost var done: seq<Prepared> := [];
    var i := 0;
    while i < |ps|
      invariant 0 <= i <= |ps| && done == ps[..i]
      invariant Indexed(all, groups, ds, artists, albums, done)
      invariant forall k :: k in all ==> fresh(all[k])
    {
      PrefixStep(ps, i);
      all, artists, albums, groups, ds := FileRecord(ps[i], all, artists, albums, groups, ds, done);
      done := done + [ps[i]];
      i := i + 1;
    }
    PrefixAll(ps);
  }

  /** Every album the artist index holds after grouping is consistent with
      its disc list. */
  lemma IndexedValid(all: map<string, Album>, groups: map<string, seq<Track>>, ds: map<string, seq<int>>,
                     artists: map<string, map<string, Album>>, albums: seq<Album>, ps: seq<Prepared>)
    requires Indexed(all, groups, ds, artists, albums, ps)
    ensures forall n, t :: n in artists && t in artists[n] ==> artists[n][t].Valid()
  {
    forall n, t | n in artists && t in artists[n]
      ensures artists[n][t].Valid()
    {
      FilledValid(all, groups, ds, ps, Index(ps)[n][t]);
    }
  }

  /** Every multi-disc album of the index has a disc number on each track;
      `int(t['discNumber'])` raises otherwise. */
  ghost predicate SplitReady(artists: map<string, map<string, Album>>)
    reads set n, t | n in artists && t in artists[n] :: artists[n][t]
  {
    forall n, t :: n in artists && t in artists[n] && |artists[n][t].discs| > 1 ==> Numbered(artists[n][t])
  }

  /** "Separate multi-disc albums" over every artist of the index. `false`
      when some multi-disc album has a track without a disc number. Albums
      already there are left as they are. */
  method SplitAll(artists: map<string, map<string, Album>>) returns (ok: bool, result: map<string, map<string, Album>>)
    requires forall n, t :: n in artists && t in artists[n] ==> artists[n][t].Valid()
    ensures ok <==> SplitReady(artists)
    ensures ok ==> result.Keys == artists.Keys
    ensures ok ==> forall n :: n in result ==> DiscsSplit(artists[n], result[n])
  {
    ok := forall n, t | n in artists && t in artists[n] :: |artists[n][t].discs| > 1 ==> Numbered(artists[n][t]);
    result := artists;
    if !ok {
      return;
    }
    var names := artists.Keys;
    while names != {}
      invariant names <= artists.Keys && result.Keys == artists.Keys
      invariant forall n :: n in artists && n !in names ==> DiscsSplit(artists[n], result[n])
      decreases names
    {
      var n :| n in names;
      result := SplitArtist(artists, result, names, n);
      names := names - {n};
    }
  }

  /** One artist of the loop above: its album map split, the others kept. */
  method SplitArtist(artists: map<string, map<string, Album>>, result: map<string, map<string, Album>>,
                     ghost names: set<string>, n: string)
      returns (next: map<string, map<string, Album>>)
    requires forall n, t :: n in artists && t in artists[n] ==> artists[n][t].Valid()
    requires SplitReady(artists)
    requires names <= artists.Keys && result.Keys == artists.Keys && n in names
    requires forall m :: m in artists && m !in names ==> DiscsSplit(artists[m], result[m])
    ensures next.Keys == artists.Keys
    ensures forall m :: m in artists && m !in names - {n} ==> DiscsSplit(artists[m], next[m])
  {
    var shelf := SeparateDiscs(artists[n]);
    next := result[n := shelf];
    forall m | m in artists && m !in names - {n}
      ensures DiscsSplit(artists[m], next[m])
    {
      if m != n {
        assert m !in names && next[m] == result[m];
      }
    }
  }

  /** What the grouping leaves under each album key: an album exactly when
      some record has that key, holding the records of that key in their
      order, with a disc list that matches them. */
  lemma {:induction false} GroupedByKey(all: map<string, Album>, groups: map<string, seq<Track>>, ds: map<string, seq<int>>,
                                        artists: map<string, map<string, Album>>, albums: seq<Album>, ps: seq<Prepared>,
                                        k: string)
    requires Indexed(all, groups, ds, artists, albums, ps)
    ensures k in all <==> Under(ps, k) != []
    ensures k in all ==> Infos(all[k].tracks) == Under(ps, k) && all[k].Valid()
  {
    GroupsUnder(ps, k);
    if k in all {
      FilledValid(all, groups, ds, ps, k);
    }
  }

  /** The album list holds every album of the grouping once, in the order
      their keys first occur. */
  lemma {:induction false} AlbumsInFirstSeenOrder(all: map<string, Album>, groups: map<string, seq<Track>>,
                                                  ds: map<string, seq<int>>, artists: map<string, map<string, Album>>,
                                                  albums: seq<Album>, ps: seq<Prepared>)
    requires Indexed(all, groups, ds, artists, albums, ps)
    ensures |albums| == |Order(ps)|
    ensures forall i :: 0 <= i < |albums| ==> Order(ps)[i] in all && albums[i] == all[Order(ps)[i]]
    ensures forall k :: k in all <==> k in Order(ps)
    ensures forall i, j :: 0 <= i < j < |albums| ==> albums[i] != albums[j]
  {
    OrderKeys(ps);
    forall i, j | 0 <= i < j < |albums|
      ensures albums[i] != albums[j]
    {
      assert Order(ps)[i] != Order(ps)[j];
    }
  }

  /** One element of the server's playlist contents: its name and entries. */
  datatype PlaylistData = PlaylistData(name: string, entries: seq<Entry>)

  /** The playlist `Playlist(library, pldata)` builds. */
  function PlaylistOf(d: PlaylistData, library: map<string, EntryTrack>): (p: Playlist)
    ensures |p.tracks| == |d.entries|
  {
    Playlist(d.name, Strip(FormatNames(d.name)),
             seq(|d.entries|, i requires 0 <= i < |d.entries| => Resolve(d.entries[i], library)))
  }

  /** The key a playlist is filed under: its lower-cased directory name. */
  function PlaylistKey(d: PlaylistData): string
  {
    Lower(Strip(FormatNames(d.name)))
  }

  /** The playlist map after loading `lists` in order into `m`. */
  function Loaded(m: map<string, Playlist>, lists: seq<PlaylistData>, library: map<string, EntryTrack>): (r: map<string, Playlist>)
    ensures m.Keys <= r.Keys
  {
    if lists == [] then m
    else
      var last := lists[|lists| - 1];
      Loaded(m, lists[..|lists| - 1], library)[PlaylistKey(last) := PlaylistOf(last, library)]
  }

  /** Loading files a key exactly when it was there or some loaded
      playlist has it. */
  lemma {:induction false} LoadedKeys(m: map<string, Playlist>, lists: seq<PlaylistData>, library: map<string, EntryTrack>,
                                      k: string)
    ensures k in Loaded(m, lists, library) <==> k in m || exists i :: 0 <= i < |lists| && PlaylistKey(lists[i]) == k
  {
    if lists != [] {
      var n := |lists| - 1;
      var init := lists[..n];
      var last := PlaylistKey(lists[n]);
      LoadedKeys(m, init, library, k);
      assert k in Loaded(m, lists, library) <==> k in Loaded(m, init, library) || k == last;
      if k == last {
        assert 0 <= n < |lists| && PlaylistKey(lists[n]) == k;
      } else if exists i :: 0 <= i < |init| && PlaylistKey(init[i]) == k {
        var i :| 0 <= i < |init| && PlaylistKey(init[i]) == k;
        assert lists[i] == init[i];
      } else {
        forall i | 0 <= i < |lists|
          ensures PlaylistKey(lists[i]) != k
        {
          if i < n {
            assert init[i] == lists[i];
          } else {
            assert i == n;
          }
        }
      }
    }
  }

  /** Under a key, the last playlist loaded with that key wins. */
  lemma {:induction false} LoadedLast(m: map<string, Playlist>, lists: seq<PlaylistData>, library: map<string, EntryTrack>,
                                      i: nat)
    requires i < |lists|
    requires forall j :: i < j < |lists| ==> PlaylistKey(lists[j]) != PlaylistKey(lists[i])
    ensures PlaylistKey(lists[i]) in Loaded(m, lists, library)
    ensures Loaded(m, lists, library)[PlaylistKey(lists[i])] == PlaylistOf(lists[i], library)
  {
    if i < |lists| - 1 {
      var init := lists[..|lists| - 1];
      assert init[i] == lists[i];
      forall j | i < j < |init|
        ensures PlaylistKey(init[j]) != PlaylistKey(init[i])
      {
        assert init[j] == lists[j];
      }
      LoadedLast(m, init, library, i);
    }
  }

  /** Playlists under keys that no loaded playlist has are kept. */
  lemma {:induction false} LoadedKeeps(m: map<string, Playlist>, lists: seq<PlaylistData>, library: map<string, EntryTrack>,
                                       k: string)
    requires k in m
    requires forall j :: 0 <= j < |lists| ==> PlaylistKey(lists[j]) != k
    ensures k in Loaded(m, lists, library) && Loaded(m, lists, library)[k] == m[k]
  {
    if lists != [] {
      var init := lists[..|lists| - 1];
      forall j | 0 <= j < |init|
        ensures PlaylistKey(init[j]) != k
      {
        assert init[j] == lists[j];
      }
      LoadedKeeps(m, init, library, k);
    }
  }

  /** The lookup `get_artist` and `get_playlist` both do, as written:
      `d.get(name.lower(), None)`. */
  function LookupLower<V>(m: map<string, V>, name: string): (r: Option<V>)
    ensures r.Some? <==> Lower(name) in m
    ensures r.Some? ==> r.value == m[Lower(name)]
  {
    if Lower(name) in m then Some(m[Lower(name)]) else None
  }

  /** The build files artists under their album artist as given, so an
      artist whose name has an upper-case letter cannot be found by its own
      name. */
  lemma MixedCaseArtistUnreachable(shelf: map<string, Album>)
    ensures LookupLower(map["ABBA" := shelf], "ABBA").None?
  {
    assert Lower("ABBA") == "abba";
  }

  /** The artist lookup with the filed name tried first, then its
      lower-cased form. */
  function GetArtistFrom(artists: map<string, map<string, Album>>, name: string): (r: Option<map<string, Album>>)
    ensures name in artists ==> r == Some(artists[name])
    ensures name !in artists ==> r == LookupLower(artists, name)
  {
    if name in artists then Some(artists[name])
    else if Lower(name) in artists then Some(artists[Lower(name)])
    else None
  }

  /** Every filed artist is found by its own name, and lower-case names
      behave as before. */
  lemma FiledArtistFound(artists: map<string, map<string, Album>>, name: string)
    ensures name in artists ==> GetArtistFrom(artists, name) == Some(artists[name])
    ensures Lower(name) == name ==> GetArtistFrom(artists, name) == LookupLower(artists, name)
  {
  }

  /** A loaded playlist is found under its directory name, whether it is
      listed lower-cased or not, unless a later playlist took its key. */
  lemma ListedPlaylistFound(m: map<string, Playlist>, lists: seq<PlaylistData>, library: map<string, EntryTrack>,
                            i: nat, lowercase: bool)
    requires i < |lists|
    requires forall j :: i < j < |lists| ==> PlaylistKey(lists[j]) != PlaylistKey(lists[i])
    ensures LookupLower(Loaded(m, lists, library), Transform(PlaylistOf(lists[i], library).dirname, lowercase))
            == Some(PlaylistOf(lists[i], library))
  {
    LoadedLast(m, lists, library, i);
    LowerIdempotent(PlaylistOf(lists[i], library).dirname);
  }

  /** Every album filed in an artist index. */
  ghost function AlbumsIn(index: map<string, map<string, Album>>): set<Album>
  {
    set n, t | n in index && t in index[n] :: index[n][t]
  }

  /** Every record can be prepared. */
  ghost predicate AllPrepared(records: seq<Record>, albumInfo: map<string, Record>, artistInfo: map<string, Record>,
                              cleanupName: (string, seq<string>) -> (string, seq<string>))
  {
    forall i :: 0 <= i < |records| ==> Prepare(records[i], albumInfo, artistInfo, cleanupName).Some?
  }

  /** The grouping half of `__aggregate_albums` is done: `ps` are the
      prepared records, and `all`, `grouped` and `albums` their grouping;
      `objs` holds every album involved. */
  ghost predicate Grouped(records: seq<Record>, albumInfo: map<string, Record>, artistInfo: map<string, Record>,
                          cleanupName: (string, seq<string>) -> (string, seq<string>),
                          albums: seq<Album>, ps: seq<Prepared>, all: map<string, Album>,
                          grouped: map<string, map<string, Album>>,
                          groups: map<string, seq<Track>>, ds: map<string, seq<int>>, objs: set<Album>)
    reads objs
  {
    all.Values <= objs
    && |ps| == |records|
    && (forall i :: 0 <= i < |records| ==> Prepare(records[i], albumInfo, artistInfo, cleanupName) == Some(ps[i]))
    && Indexed(all, groups, ds, grouped, albums, ps)
  }

  /** `__aggregate_albums` has succeeded: the records are grouped, no
      multi-disc album lacks a disc number, and `artists` is the grouped
      index with every multi-disc album split. */
  ghost predicate Built(records: seq<Record>, albumInfo: map<string, Record>, artistInfo: map<string, Record>,
                        cleanupName: (string, seq<string>) -> (string, seq<string>),
                        artists: map<string, map<string, Album>>, albums: seq<Album>, ps: seq<Prepared>,
                        all: map<string, Album>, grouped: map<string, map<string, Album>>,
                        groups: map<string, seq<Track>>, ds: map<string, seq<int>>, objs: set<Album>)
    reads objs
  {
    Grouped(records, albumInfo, artistInfo, cleanupName, albums, ps, all, grouped, groups, ds, objs)
    && AlbumsIn(grouped) <= objs && AlbumsIn(artists) <= objs
    && SplitReady(grouped)
    && artists.Keys == grouped.Keys
    && forall n :: n in artists ==> DiscsSplit(grouped[n], artists[n])
  }

  /** `__aggregate_albums`: every record prepared, then grouped, then the
      multi-disc albums split. */
  method Build(records: seq<Record>, albumInfo: map<string, Record>, artistInfo: map<string, Record>,
               cleanupName: (string, seq<string>) -> (string, seq<string>))
      returns (ok: bool, artists: map<string, map<string, Album>>, albums: seq<Album>,
               ghost ps: seq<Prepared>, ghost all: map<string, Album>, ghost grouped: map<string, map<string, Album>>,
               ghost groups: map<string, seq<Track>>, ghost ds: map<string, seq<int>>, ghost objs: set<Album>)
    ensures ok == Built(records, albumInfo, artistInfo, cleanupName, artists, albums, ps, all, grouped, groups, ds, objs)
    ensures !ok ==> !AllPrepared(records, albumInfo, artistInfo, cleanupName)
                    || (Grouped(records, albumInfo, artistInfo, cleanupName, albums, ps, all, grouped, groups, ds, objs)
                        && !SplitReady(grouped))
    ensures ok ==> AllPrepared(records, albumInfo, artistInfo, cleanupName)
    ensures !AllPrepared(records, albumInfo, artistInfo, cleanupName) ==> !ok && artists == map[] && albums == []
  {
    ps, all, grouped, groups, ds := [], map[], map[], map[], map[];
    artists, albums := map[], [];
    var prepared := PrepareAll(records, albumInfo, artistInfo, cleanupName);
    if prepared.None? {
      objs := {};
      assert |ps| != |records|;
      assert !Grouped(records, albumInfo, artistInfo, cleanupName, albums, ps, all, grouped, groups, ds, objs);
      return false, artists, albums, ps, all, grouped, groups, ds, objs;
    }
    var filed, index;
    filed, index, albums, groups, ds := GroupAll(prepared.value);
    ps, all, grouped := prepared.value, filed, index;
    IndexedValid(all, groups, ds, grouped, albums, ps);
    var result;
    ok, result := SplitAll(index);
    artists := if ok then result else index;
    objs := all.Values + AlbumsIn(grouped) + AlbumsIn(artists);
    assert Grouped(records, albumInfo, artistInfo, cleanupName, albums, ps, all, grouped, groups, ds, objs);
    assert AlbumsIn(grouped) <= objs && AlbumsIn(artists) <= objs;
    if ok {
      assert artists.Keys == grouped.Keys && forall n :: n in artists ==> DiscsSplit(grouped[n], artists[n]);
      assert Built(records, albumInfo, artistInfo, cleanupName, artists, albums, ps, all, grouped, groups, ds, objs);
    } else {
      assert !SplitReady(grouped);
    }
  }

  /** The parts of a successful build that do not depend on the albums'
      state. */
  lemma BuiltShape(records: seq<Record>, albumInfo: map<string, Record>, artistInfo: map<string, Record>,
                   cleanupName: (string, seq<string>) -> (string, seq<string>),
                   artists: map<string, map<string, Album>>, albums: seq<Album>, ps: seq<Prepared>,
                   all: map<string, Album>, grouped: map<string, map<string, Album>>,
                   groups: map<string, seq<Track>>, ds: map<string, seq<int>>, objs: set<Album>)
    requires Built(records, albumInfo, artistInfo, cleanupName, artists, albums, ps, all, grouped, groups, ds, objs)
    ensures |ps| == |records|
    ensures forall i :: 0 <= i < |records| ==> Prepare(records[i], albumInfo, artistInfo, cleanupName) == Some(ps[i])
    ensures artists.Keys == Index(ps).Keys
    ensures |albums| == |Order(ps)| && forall i :: 0 <= i < |albums| ==> Order(ps)[i] in all && albums[i] == all[Order(ps)[i]]
  {
  }

  /** "Add all playlists": each playlist in order, filed under its
      lower-cased directory name; a later one replaces an earlier one with
      the same key. */
  method LoadAll(playlists: map<string, Playlist>, lists: seq<PlaylistData>, library: map<string, EntryTrack>)
      returns (loaded: map<string, Playlist>)
    ensures loaded == Loaded(playlists, lists, library)
  {
    loaded := playlists;
    ghost var done: seq<PlaylistData> := [];
    var i := 0;
    while i < |lists|
      invariant 0 <= i <= |lists| && done == lists[..i]
      invariant loaded == Loaded(playlists, done, library)
    {
      var p := NewPlaylist(lists[i].name, lists[i].entries, library);
      assert p.tracks == PlaylistOf(lists[i], library).tracks;
      PrefixStep(lists, i);
      var next := done + [lists[i]];
      assert next[..|next| - 1] == done;
      loaded := loaded[Lower(p.dirname) := p];
      done := next;
      i := i + 1;
    }
    PrefixAll(lists);
  }

  class MusicLibrary {
    /** Album artist -> formatted album title -> album. */
    var artists: map<string, map<string, Album>>
    /** Every album created while grouping, in creation order. */
    var albums: seq<Album>
    /** Lower-cased playlist directory name -> playlist. */
    var playlists: map<string, Playlist>
    /** Track id -> track. Nothing in the build fills it. */
    const tracks: map<string, EntryTrack>

    constructor()
      ensures artists == map[] && albums == [] && playlists == map[] && tracks == map[]
    {
      artists := map[];
      albums := [];
      playlists := map[];
      tracks := map[];
    }


    /** `get_artist`, looking the filed name up first (see
        `LookupLower` for the lookup as written). */
    function GetArtist(name: string): (r: Option<map<string, Album>>)
      reads this
      ensures name in artists ==> r == Some(artists[name])
      ensures r.Some? ==> r.value in artists.Values
    {
      GetArtistFrom(artists, name)
    }

    /** `get_artists`: the album map of every artist. */
    function GetArtists(): (r: set<map<string, Album>>)
      reads this
      ensures forall n :: n in artists ==> artists[n] in r
      ensures r <= artists.Values
    {
      artists.Values
    }

    /** `get_playlist`: the playlist filed under the lower-cased name. */
    function GetPlaylist(name: string): (r: Option<Playlist>)
      reads this
      ensures r.Some? <==> Lower(name) in playlists
      ensures r.Some? ==> r.value == playlists[Lower(name)]
    {
      LookupLower(playlists, name)
    }

    /** `get_playlists`: every filed playlist. */
    function GetPlaylists(): (r: set<Playlist>)
      reads this
      ensures forall k :: k in playlists ==> playlists[k] in r
      ensures r <= playlists.Values
    {
      playlists.Values
    }

    /** `get_track`: the track with the given id. Nothing fills the map, so
        after construction no id is found. */
    function GetTrack(id: string): (r: Option<EntryTrack>)
      reads this
      ensures r.Some? <==> id in tracks
      ensures r.Some? ==> r.value == tracks[id] && r.value in tracks.Values
    {
      if id in tracks then Some(tracks[id]) else None
    }

    /** `rescan`: the album index is emptied and rebuilt from the records
        (with the remote album and artist information as maps), and the
        playlists are loaded into the playlist map, which is not emptied.
        `false` when the build fails; the source raises then. After a
        build, every record was prepared, the artist names are the album
        artists the records were filed under, and the album list holds
        the grouping's albums in the order their keys first occur; what
        the albums hold is stated by `Build`. */
    method Rescan(records: seq<Record>, albumInfo: map<string, Record>, artistInfo: map<string, Record>,
                  cleanupName: (string, seq<string>) -> (string, seq<string>), lists: seq<PlaylistData>)
        returns (ok: bool, ghost ps: seq<Prepared>, ghost all: map<string, Album>,
                 ghost grouped: map<string, map<string, Album>>,
                 ghost groups: map<string, seq<Track>>, ghost ds: map<string, seq<int>>, ghost objs: set<Album>)
      modifies this
      ensures ok ==> |ps| == |records|
      ensures ok ==> forall i :: 0 <= i < |records| ==> Prepare(records[i], albumInfo, artistInfo, cleanupName) == Some(ps[i])
      ensures ok ==> artists.Keys == Index(ps).Keys
      ensures ok ==> |albums| == |Order(ps)| && forall i :: 0 <= i < |albums| ==> Order(ps)[i] in all && albums[i] == all[Order(ps)[i]]
      ensures ok ==> playlists == Loaded(old(playlists), lists, tracks)
      ensures !ok ==> playlists == old(playlists)
    {
      var loaded := LoadAll(playlists, lists, tracks);
      var index, made;
      ok, index, made, ps, all, grouped, groups, ds, objs := Build(records, albumInfo, artistInfo, cleanupName);
      if ok {
        BuiltShape(records, albumInfo, artistInfo, cleanupName, index, made, ps, all, grouped, groups, ds, objs);
      }
      artists := index;
      albums := made;
      if ok {
        playlists := loaded;
      }
    }
  }
}
