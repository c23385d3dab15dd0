/**
 * `Album` and `Artist`: an album keeps the tracks added to it, the distinct
 * disc numbers among them, its cover art, and memoises each track's
 * virtual file size (`calc_size`); an artist keeps its albums under their
 * lower-cased titles.
 */
module Albums {
  import opened Wrappers
  import opened Names
  import opened Paths
  import opened Tags

  /** A track dict as albums share it: its catalog record does not change
      once the library is built; its memoised `tagSize` does. `tagSize` is
      kept as a number here (the source stores its decimal string and reads
      it back with `int`). */
  class Track {
    const info: TrackInfo
    var tagSize: Option<int>

    constructor(info: TrackInfo)
      ensures this.info == info && tagSize == None
    {
      this.info := info;
      tagSize := None;
    }
  }

  /** The catalog records of a list of tracks. */
  function Infos(ts: seq<Track>): (r: seq<TrackInfo>)
    ensures |r| == |ts|
    ensures forall i :: 0 <= i < |ts| ==> r[i] == ts[i].info
  {
    seq(|ts|, i requires 0 <= i < |ts| => ts[i].info)
  }

  lemma InfosAppend(ts: seq<Track>, t: Track)
    ensures Infos(ts + [t]) == Infos(ts) + [t.info]
    ensures Infos(ts + [t])[..|ts|] == Infos(ts)
  {
  }

  // ---------------------------------------------------------------------
  // Disc numbers

  /** The distinct disc numbers of `s` in order of first appearance: the
      list `add_track` builds. */
  function DiscsOf(s: seq<TrackInfo>): seq<int>
  {
    if s == [] then []
    else
      var prev := DiscsOf(s[..|s| - 1]);
      var d := s[|s| - 1].discNumber;
      if d.Some? && d.value !in prev then prev + [d.value] else prev
  }

  /** The set of disc numbers the tracks carry. */
  function DiscSet(s: seq<TrackInfo>): set<int>
  {
    set i | 0 <= i < |s| && s[i].discNumber.Some? :: s[i].discNumber.value
  }

  predicate NoDuplicates(s: seq<int>)
  {
    forall i, j :: 0 <= i < j < |s| ==> s[i] != s[j]
  }

  /** The disc list never holds a number twice, and it holds exactly the
      disc numbers of the tracks. */
  lemma {:induction false} DiscsOfDistinct(s: seq<TrackInfo>)
    ensures NoDuplicates(DiscsOf(s))
    ensures forall d :: d in DiscsOf(s) <==> d in DiscSet(s)
  {
    if s != [] {
      var p := s[..|s| - 1];
      DiscsOfDistinct(p);
      forall d ensures d in DiscSet(s) <==> d in DiscSet(p) || s[|s| - 1].discNumber == Some(d) {
        if d in DiscSet(s) {
          var i :| 0 <= i < |s| && s[i].discNumber == Some(d);
          if i < |s| - 1 { assert p[i] == s[i]; }
        }
        if d in DiscSet(p) {
          var i :| 0 <= i < |p| && p[i].discNumber == Some(d);
          assert s[i] == p[i];
        }
      }
    }
  }

  /** A list without duplicates has as many elements as its set. */
  lemma {:induction false} NoDuplicatesCard(s: seq<int>)
    requires NoDuplicates(s)
    ensures |set x | x in s| == |s|
  {
    if s != [] {
      var p := s[..|s| - 1];
      NoDuplicatesCard(p);
      assert (set x | x in s) == (set x | x in p) + {s[|s| - 1]};
      assert s[|s| - 1] !in p;
    }
  }

  /** `get_disc_count` equals the number of distinct disc numbers among the
      tracks. */
  lemma DiscCountDistinct(s: seq<TrackInfo>)
    ensures |DiscsOf(s)| == |DiscSet(s)|
  {
    DiscsOfDistinct(s);
    NoDuplicatesCard(DiscsOf(s));
    forall x ensures x in (set x | x in DiscsOf(s)) <==> x in DiscSet(s) {
    }
    assert (set x | x in DiscsOf(s)) == DiscSet(s);
  }

  // ---------------------------------------------------------------------
  // Years

  /** How many of the tracks carry year `y`. */
  function CountYear(s: seq<TrackInfo>, y: int): nat
  {
    if s == [] then 0
    else CountYear(s[..|s| - 1], y) + (if s[|s| - 1].year == y then 1 else 0)
  }

  /** A track's own year is counted at least once. */
  lemma {:induction false} CountYearPositive(s: seq<TrackInfo>, i: nat)
    requires i < |s|
    ensures CountYear(s, s[i].year) >= 1
  {
    if i < |s| - 1 {
      assert s[..|s| - 1][i] == s[i];
      CountYearPositive(s[..|s| - 1], i);
    }
  }

  /** A year no track carries is counted zero times. */
  lemma {:induction false} CountYearAbsent(s: seq<TrackInfo>, y: int)
    requires forall i :: 0 <= i < |s| ==> s[i].year != y
    ensures CountYear(s, y) == 0
  {
    if s != [] {
      var p := s[..|s| - 1];
      assert forall i :: 0 <= i < |p| ==> p[i] == s[i];
      CountYearAbsent(p, y);
    }
  }

  // ---------------------------------------------------------------------
  // Track lookup by file name

  /** The position of the first track whose formatted title is `title`, or
      `|s|` when there is none. */
  function IndexOfTitle(s: seq<TrackInfo>, title: string): (k: nat)
    ensures k <= |s|
    ensures k < |s| ==> FormatNames(s[k].title) == title
    ensures forall j :: 0 <= j < k ==> FormatNames(s[j].title) != title
  {
    if s == [] then 0
    else if FormatNames(s[0].title) == title then 0
    else 1 + IndexOfTitle(s[1..], title)
  }

  // ---------------------------------------------------------------------
  // Cover art

  /** The image `gen_tag(fake_art=True)` embeds: the album's art if it has
      been downloaded, otherwise as many zero bytes as the art's probed
      size; nothing for a track without an art reference. */
  function FakeCover(info: TrackInfo, art: Option<seq<byte>>, artSize: Option<int>): Option<seq<byte>>
  {
    if info.artUrl.None? then None
    else if art.Some? then art
    else Some(ZeroBytes(artSize.GetOr(0)))
  }

  /** The image `gen_tag()` embeds once the art has been loaded: the album's
      art, if any. */
  function RealCover(info: TrackInfo, art: Option<seq<byte>>): Option<seq<byte>>
  {
    if info.artUrl.None? then None else art
  }

  /** The art fields agree with the art server: the probed size is the
      length of what the URL serves, and loaded art is what it serves. */
  ghost predicate ArtAgrees(artUrl: Option<string>, artSize: Option<int>, art: Option<seq<byte>>, artStore: string -> seq<byte>)
  {
    (artUrl.Some? ==> artSize == Some(|artStore(artUrl.value)|))
    && (art.Some? ==> artUrl.Some? && art.value == artStore(artUrl.value))
  }

  /** The tag `calc_size` measures, with fake art, and the tag opened files
      render, with the art loaded from the same URL, have the same shape:
      so the header `calc_size` sized has the length `read` later renders. */
  lemma FakeAndRealCoverAgree(info: TrackInfo, showDiscnum: bool, artUrl: Option<string>, artSize: Option<int>,
                              art: Option<seq<byte>>, loaded: Option<seq<byte>>, artStore: string -> seq<byte>)
    requires ArtAgrees(artUrl, artSize, art, artStore)
    requires ArtAgrees(artUrl, artSize, loaded, artStore)
    requires art.Some? ==> loaded == art
    requires info.artUrl.Some? && artUrl.Some? ==> loaded.Some?
    requires info.artUrl.Some? ==> artUrl.Some?
    ensures SameShape(GenTag(info, showDiscnum, FakeCover(info, art, artSize)),
                      GenTag(info, showDiscnum, RealCover(info, loaded)))
  {
    var fake := FakeCover(info, art, artSize);
    var actual := RealCover(info, loaded);
    if info.artUrl.Some? && art.None? {
      assert |fake.value| == |artStore(artUrl.value)| == |actual.value|;
    }
    GenTagSameShape(info, showDiscnum, fake, actual);
  }

  // ---------------------------------------------------------------------
  // Album

  class Album {
    const normtitle: string
    const artist: string
    const album: string
    const year: int
    var tracks: seq<Track>
    var sorted: bool
    var discs: seq<int>
    var showDiscnum: bool
    var art: Option<seq<byte>>
    var artSize: Option<int>
    var artUrl: Option<string>

    /** The disc list is the one `add_track` builds from the tracks. */
    ghost predicate Valid()
      reads this
    {
      discs == DiscsOf(Infos(tracks))
    }

    /** The art fields agree with the art server. */
    ghost predicate ArtConsistent(artStore: string -> seq<byte>)
      reads this
    {
      ArtAgrees(artUrl, artSize, art, artStore)
    }

    /** `Album(library, normtitle, artist, album, year)`: the title is
        normalised on the way in. */
    constructor(normtitle: string, artist: string, album: string, year: int)
      ensures this.normtitle == FormatNames(normtitle)
      ensures this.artist == artist && this.album == album && this.year == year
      ensures tracks == [] && discs == [] && sorted && !showDiscnum
      ensures art == None && artSize == None && artUrl == None
      ensures Valid()
    {
      this.normtitle := FormatNames(normtitle);
      this.artist := artist;
      this.album := album;
      this.year := year;
      tracks := [];
      sorted := true;
      discs := [];
      showDiscnum := false;
      art := None;
      artSize := None;
      artUrl := None;
    }

    /** `add_track`: appends the track, and its disc number when that one is
        not listed yet. */
    method AddTrack(t: Track)
      requires Valid()
      modifies this
      ensures Valid()
      ensures tracks == old(tracks) + [t] && !sorted
      ensures discs == old(discs) + (if t.info.discNumber.Some? && t.info.discNumber.value !in old(discs)
                                     then [t.info.discNumber.value] else [])
      ensures showDiscnum == old(showDiscnum)
      ensures art == old(art) && artSize == old(artSize) && artUrl == old(artUrl)
    {
      if t.info.discNumber.Some? && t.info.discNumber.value !in discs {
        discs := discs + [t.info.discNumber.value];
      }
      InfosAppend(tracks, t);
      tracks := tracks + [t];
      sorted := false;
    }

    /** `get_tracks`: the tracks in the order they were added. An unsorted
        album is re-sorted by the key `'track'`, which catalog records do not
        carry; every key is `None`, and the stable sort keeps the order. */
    method GetTracks() returns (ts: seq<Track>)
      ensures ts == tracks
    {
      ts := tracks;
    }

    /** `get_track_count`. */
    function GetTrackCount(): nat
      reads this
    {
      |tracks|
    }

    /** `get_disc_count`: the number of distinct disc numbers among the
        tracks. */
    function GetDiscCount(): (n: nat)
      reads this
      requires Valid()
      ensures n == |DiscSet(Infos(tracks))|
    {
      DiscCountDistinct(Infos(tracks));
      |discs|
    }

    /** `get_discs`: the distinct disc numbers, each once. */
    function GetDiscs(): (ds: seq<int>)
      reads this
      requires Valid()
      ensures NoDuplicates(ds)
      ensures forall d :: d in ds <==> d in DiscSet(Infos(tracks))
    {
      DiscsOfDistinct(Infos(tracks));
      discs
    }

    /** `get_track`: the first track whose formatted title is the one the
        file name carries. The pattern is the corrected `^[0-9]+_(.*)\.mp3$`
        (see `ParseTrackFileName`). */
    method GetTrack(filename: string) returns (r: Option<Track>)
      ensures ParseTrackFileName(filename).None? ==> r == None
      ensures ParseTrackFileName(filename).Some? ==>
                var k := IndexOfTitle(Infos(tracks), ParseTrackFileName(filename).value);
                r == if k < |tracks| then Some(tracks[k]) else None
    {
      var m := ParseTrackFileName(filename);
      if m.None? {
        return None;
      }
      var title := m.value;
      var ts := GetTracks();
      var i := 0;
      while i < |ts|
        invariant 0 <= i <= |ts|
        invariant forall j :: 0 <= j < i ==> FormatNames(ts[j].info.title) != title
      {
        if FormatNames(ts[i].info.title) == title {
          IndexOfTitleAt(Infos(ts), title, i);
          return Some(ts[i]);
        }
        i := i + 1;
      }
      IndexOfTitleAt(Infos(ts), title, |ts|);
      return None;
    }

    /** `get_year`: 0 when no track has a non-zero year; otherwise a year
        that occurs most often. Ties go to the year seen first (the source
        takes whichever comes first in its dictionary). */
    method GetYear() returns (top: int)
      ensures top == 0 <==> forall i :: 0 <= i < |tracks| ==> tracks[i].info.year == 0
      ensures top != 0 ==> CountYear(Infos(tracks), top) >= 1
      ensures forall y :: y != 0 ==> CountYear(Infos(tracks), y) <= CountYear(Infos(tracks), top)
    {
      var s := Infos(tracks);
      var counts, order := TallyYears(s);
      assert forall k :: 0 <= k < |order| ==> order[k] in order;
      top := 0;
      var best: nat := 0;
      var j := 0;
      while j < |order|
        invariant 0 <= j <= |order|
        invariant forall y :: y in counts <==> y in order
        invariant forall k :: 0 <= k < |order| ==> order[k] in counts
        invariant top == 0 <==> best == 0
        invariant top != 0 ==> top in counts && counts[top] == best
        invariant forall k :: 0 <= k < j ==> counts[order[k]] <= best
      {
        if counts[order[j]] > best {
          top := order[j];
          best := counts[order[j]];
        }
        j := j + 1;
      }
      forall y | y != 0 ensures CountYear(s, y) <= CountYear(s, top) {
        if y in counts {
          var k :| 0 <= k < |order| && order[k] == y;
        }
      }
      if top == 0 {
        forall i | 0 <= i < |s| ensures s[i].year == 0 {
          CountYearPositive(s, i);
        }
      } else {
        if forall i :: 0 <= i < |s| ==> s[i].year == 0 {
          CountYearAbsent(s, top);
        }
      }
    }

    /** The tracks of this album that share `t`'s track id. */
    function SameId(t: Track): set<Track>
      reads this
    {
      set u | u in tracks && u.info.id == t.info.id
    }

    /** `calc_size`: the first call for a track (one without `tagSize`)
        probes the art size when the album has no art URL yet, measures the
        ID3v2 header with fake art, sets `tagSize` to the estimated size plus
        128 plus the header's length, and copies it to every track of the
        album with the same id. A track that already has a `tagSize` is left
        as it is. The HEAD request is `artStore`'s length. */
    method CalcSize(t: Track, render: Tag -> seq<byte>, artStore: string -> seq<byte>)
      requires ArtConsistent(artStore)
      modifies this, t, set u | u in tracks
      ensures ArtConsistent(artStore)
      ensures tracks == old(tracks) && discs == old(discs) && sorted == old(sorted)
      ensures showDiscnum == old(showDiscnum) && art == old(art)
      ensures old(t.tagSize).Some? ==>
                artUrl == old(artUrl) && artSize == old(artSize) && t.tagSize == old(t.tagSize)
                && forall u | u in tracks :: u.tagSize == old(u.tagSize)
      ensures old(t.tagSize).None? ==>
                artUrl == (if old(artUrl).None? then t.info.artUrl else old(artUrl))
                && t.tagSize == Some(t.info.estimatedSize + 128
                                     + |render(GenTag(t.info, showDiscnum, FakeCover(t.info, art, artSize)))|)
                && forall u | u in tracks :: u.tagSize == (if u.info.id == t.info.id then t.tagSize else old(u.tagSize))
    {
      if t.tagSize.Some? {
        return;
      }
      if artUrl.None? && t.info.artUrl.Some? {
        artUrl := t.info.artUrl;
        artSize := Some(|artStore(t.info.artUrl.value)|);
      }
      var tag := GenTag(t.info, showDiscnum, FakeCover(t.info, art, artSize));
      var header := render(tag);
      var size := t.info.estimatedSize + 128 + |header|;
      t.tagSize := Some(size);
      var i := 0;
      while i < |tracks|
        invariant 0 <= i <= |tracks|
        invariant tracks == old(tracks) && discs == old(discs) && sorted == old(sorted)
        invariant showDiscnum == old(showDiscnum) && art == old(art)
        invariant artUrl == (if old(artUrl).None? then t.info.artUrl else old(artUrl))
        invariant artSize == (if old(artUrl).None? && t.info.artUrl.Some? then Some(|artStore(t.info.artUrl.value)|) else old(artSize))
        invariant t.tagSize == Some(size)
        invariant forall u | u in tracks ::
                    u.tagSize == (if u.info.id == t.info.id && (u == t || u in tracks[..i]) then Some(size) else old(u.tagSize))
      {
        if tracks[i].info.id == t.info.id {
          tracks[i].tagSize := Some(size);
        }
        assert tracks[..i + 1] == tracks[..i] + [tracks[i]];
        i := i + 1;
      }
      assert tracks[..|tracks|] == tracks;
    }

    /** `set_art`. */
    method SetArt(url: Option<string>, size: Option<int>, data: Option<seq<byte>>)
      modifies this
      ensures artUrl == url && artSize == size && art == data
      ensures tracks == old(tracks) && discs == old(discs) && sorted == old(sorted)
      ensures showDiscnum == old(showDiscnum)
    {
      artUrl := url;
      artSize := size;
      art := data;
    }

    /** `copy_art_to`: the other album gets this album's art fields. */
    method CopyArtTo(other: Album)
      modifies other
      ensures other.artUrl == artUrl && other.artSize == artSize && other.art == art
      ensures other.tracks == old(other.tracks) && other.discs == old(other.discs)
      ensures other.sorted == old(other.sorted) && other.showDiscnum == old(other.showDiscnum)
      ensures other != this ==> unchanged(this)
    {
      other.SetArt(artUrl, artSize, art);
    }

    /** `load_art`: downloads the art when the album has a URL for it. */
    method LoadArt(artStore: string -> seq<byte>) returns (loaded: bool)
      requires ArtConsistent(artStore)
      modifies this
      ensures ArtConsistent(artStore)
      ensures loaded <==> artUrl.Some?
      ensures art == if artUrl.Some? then Some(artStore(artUrl.value)) else old(art)
      ensures artUrl == old(artUrl) && artSize == old(artSize)
      ensures tracks == old(tracks) && discs == old(discs) && sorted == old(sorted)
      ensures showDiscnum == old(showDiscnum)
    {
      if artUrl.Some? {
        art := Some(artStore(artUrl.value));
        return true;
      }
      return false;
    }

    /** `gen_tag(track)` with real art: the album's art, downloaded first
        if it has not been yet. */
    method TagFor(t: Track, artStore: string -> seq<byte>) returns (tag: Tag)
      requires ArtConsistent(artStore)
      modifies this
      ensures ArtConsistent(artStore)
      ensures tag == GenTag(t.info, showDiscnum, RealCover(t.info, art))
      ensures art == (if t.info.artUrl.Some? && old(art).None? && artUrl.Some?
                      then Some(artStore(artUrl.value)) else old(art))
      ensures artUrl == old(artUrl) && artSize == old(artSize)
      ensures tracks == old(tracks) && discs == old(discs) && sorted == old(sorted)
      ensures showDiscnum == old(showDiscnum)
    {
      var cover: Option<seq<byte>> := None;
      if t.info.artUrl.Some? {
        if art.None? {
          var loaded := LoadArt(artStore);
          if loaded {
            cover := art;
          }
        } else {
          cover := art;
        }
      }
      tag := GenTag(t.info, showDiscnum, cover);
    }
  }

  /** The first half of `get_year`: the non-zero years of the tracks with
      how often each occurs, and the order in which they first occur. */
  method TallyYears(s: seq<TrackInfo>) returns (counts: map<int, nat>, order: seq<int>)
    ensures forall y :: y in counts <==> y != 0 && CountYear(s, y) > 0
    ensures forall y :: y in counts ==> counts[y] == CountYear(s, y)
    ensures forall y :: y in counts <==> y in order
  {
    counts := map[];
    order := [];
    var i := 0;
    while i < |s|
      invariant 0 <= i <= |s|
      invariant forall y :: y in counts <==> y != 0 && CountYear(s[..i], y) > 0
      invariant forall y :: y in counts ==> counts[y] == CountYear(s[..i], y)
      invariant forall y :: y in counts <==> y in order
    {
      var y := s[i].year;
      assert s[..i + 1][..i] == s[..i];
      if y != 0 {
        var c := if y in counts then counts[y] else 0;
        counts := counts[y := c + 1];
        if y !in order {
          order := order + [y];
        }
      }
      i := i + 1;
    }
    assert s[..|s|] == s;
  }

  /** The search result of `IndexOfTitle` at a position where the title
      first occurs (or past the end when it never does). */
  lemma {:induction false} IndexOfTitleAt(s: seq<TrackInfo>, title: string, i: nat)
    requires i <= |s|
    requires i < |s| ==> FormatNames(s[i].title) == title
    requires forall j :: 0 <= j < i ==> FormatNames(s[j].title) != title
    ensures IndexOfTitle(s, title) == i
  {
    var k := IndexOfTitle(s, title);
    assert k < |s| ==> FormatNames(s[k].title) == title;
    assert i < |s| ==> FormatNames(s[i].title) == title;
  }

  // ---------------------------------------------------------------------
  // Artist

  class Artist {
    const realname: string
    const dirname: string
    var albums: map<string, Album>

    constructor(name: string)
      ensures realname == name && dirname == FormatNames(name) && albums == map[]
    {
      realname := name;
      dirname := FormatNames(name);
      albums := map[];
    }

    /** `add_album`: files the album under its lower-cased title. */
    method AddAlbum(a: Album)
      modifies this
      ensures albums == old(albums)[Lower(a.normtitle) := a]
    {
      albums := albums[Lower(a.normtitle) := a];
    }

    /** `get_albums`. */
    function GetAlbums(): set<Album>
      reads this
    {
      albums.Values
    }

    /** `get_album`: the lookup ignores case. */
    function GetAlbum(title: string): (r: Option<Album>)
      reads this
      ensures r.Some? <==> Lower(title) in albums
      ensures r.Some? ==> r.value == albums[Lower(title)] && r.value in GetAlbums()
    {
      if Lower(title) in albums then Some(albums[Lower(title)]) else None
    }
  }

  /** Looking an album up by any capitalisation of its title finds it once
      it has been added. */
  lemma GetAlbumAnyCase(artist: Artist, a: Album, title: string)
    requires Lower(a.normtitle) in artist.albums && artist.albums[Lower(a.normtitle)] == a
    requires Lower(title) == Lower(a.normtitle)
    ensures artist.GetAlbum(title) == Some(a)
    ensures artist.GetAlbum(Lower(title)) == Some(a)
  {
    LowerIdempotent(title);
  }
}
