/**
 * The filesystem's path grammar (the patterns compiled in `GMusicFS.__init__`)
 * and the names its directory listings generate, with the round trips
 * between the two: every generated name is accepted by the pattern that
 * resolves it and yields back the entity it was generated from.
 */
module Paths {
  import opened Wrappers
  import opened Names
  import opened Numbers

  /** One path segment as the patterns' `[^/]+` accepts it. */
  predicate IsSegment(s: string)
  {
    s != [] && '/' !in s
  }

  /** The outcome of matching a path against the patterns, in the order the
      filesystem tries them. */
  datatype PathKind =
    | Root
    | ArtistsRoot
    | PlaylistsRoot
    | ArtistDir(artist: string)
    | AlbumDir(artist: string, year: string, album: string)
    | AlbumTrack(artist: string, year: string, album: string, track: string)
    | PlaylistDir(playlist: string)
    | PlaylistTrack(playlist: string, track: string)
    | Unmatched

  /** The `<year>_<album>` segment: `[0-9]{4}_[^/]+`. */
  predicate IsYearAlbum(seg: string)
  {
    |seg| >= 6 && AllDigits(seg[..4]) && seg[4] == '_'
  }

  /** The track segment: `[^/]+\.mp3`. */
  predicate IsMp3Name(seg: string)
  {
    |seg| >= 5 && EndsWith(seg, ".mp3")
  }

  /** Classify a path: `/`, `/artists`, `/playlists`, then the patterns
      `^/artists/(?P<artist>[^/]+)$`,
      `^/artists/(?P<artist>[^/]+)/(?P<year>[0-9]{4})_(?P<album>[^/]+)$`,
      `^/artists/.../(?P<year>[0-9]{4})_(?P<album>[^/]+)/(?P<track>[^/]+\.mp3)$`,
      `^/playlists/(?P<playlist>[^/]+)$` and
      `^/playlists/(?P<playlist>[^/]+)/(?P<track>[^/]+\.mp3)$`. */
  function Classify(path: string): (k: PathKind)
    ensures k.Root? <==> path == "/"
    ensures k.ArtistsRoot? <==> path == "/artists"
    ensures k.PlaylistsRoot? <==> path == "/playlists"
    ensures k.AlbumDir? || k.AlbumTrack? ==> |k.year| == 4 && AllDigits(k.year) && k.album != []
    ensures k.AlbumTrack? || k.PlaylistTrack? ==> IsMp3Name(k.track)
    ensures k.ArtistDir? || k.AlbumDir? || k.AlbumTrack? ==> k.artist != []
    ensures k.PlaylistDir? || k.PlaylistTrack? ==> k.playlist != []
  {
    if path == "/" then Root
    else if path == "/artists" then ArtistsRoot
    else if path == "/playlists" then PlaylistsRoot
    else ClassifySegments(Split(path, '/'))
  }

  /** The patterns, applied to the `/`-separated pieces of a path. */
  function ClassifySegments(p: seq<string>): PathKind
  {
    if |p| >= 3 && p[0] == "" && p[1] == "artists" && p[2] != "" then
      if |p| == 3 then ArtistDir(p[2])
      else if IsYearAlbum(p[3]) then
        if |p| == 4 then AlbumDir(p[2], p[3][..4], p[3][5..])
        else if |p| == 5 && IsMp3Name(p[4]) then AlbumTrack(p[2], p[3][..4], p[3][5..], p[4])
        else Unmatched
      else Unmatched
    else if |p| >= 3 && p[0] == "" && p[1] == "playlists" && p[2] != "" then
      if |p| == 3 then PlaylistDir(p[2])
      else if |p| == 4 && IsMp3Name(p[3]) then PlaylistTrack(p[2], p[3])
      else Unmatched
    else Unmatched
  }

    // ---------------------------------------------------------------------
  // Names generated by readdir

  /** `self.transform`: lower-case every name when the filesystem was
      mounted with `--lowercase`. */
  function Transform(name: string, lowercase: bool): string
  {
    if lowercase then Lower(name) else name
  }

  /** An album directory: `u'{year:04d}_{name}'` with the formatted title.
      It holds no `/`. */
  function AlbumDirName(year: int, normtitle: string): (r: string)
    ensures '/' !in r
  {
    PadHasNoSlash(year, 4);
    FormatNamesSafe(normtitle);
    assert '/' in Unsafe;
    ZeroPad(year, 4) + "_" + FormatNames(normtitle)
  }

  /** A track file inside an album directory: `'%02d_%s.mp3'`. It holds no
      `/` and ends in `.mp3`. */
  function TrackFileName(trackNumber: int, title: string): (r: string)
    ensures '/' !in r && IsMp3Name(r)
  {
    PadHasNoSlash(trackNumber, 2);
    FormatNamesSafe(title);
    assert '/' in Unsafe;
    var r := ZeroPad(trackNumber, 2) + "_" + FormatNames(title) + ".mp3";
    assert r[|r| - 4..] == ".mp3";
    r
  }

  /** A track file inside a playlist directory:
      `formatNames('%03d - %s - %s - %s.mp3' % (n, artist, album, title))`,
      then transformed. */
  function PlaylistFileName(n: int, artist: string, album: string, title: string, lowercase: bool): string
  {
    Transform(FormatNames(ZeroPad(n, 3) + " - " + artist + " - " + album + " - " + title + ".mp3"), lowercase)
  }

  /** Album.get_track's pattern `^[0-9]{2}_(.*)\.mp3$`, as written: the
      captured title, if the name matches. */
  function ParseTrackFileNameAsWritten(name: string): (t: Option<string>)
    ensures t.Some? ==> |name| == |t.value| + 7 && AllDigits(name[..2])
                        && name == name[..2] + "_" + t.value + ".mp3"
  {
    if |name| >= 7 && AllDigits(name[..2]) && name[2] == '_' && EndsWith(name, ".mp3")
       && '\n' !in name[3..|name| - 4]
    then Some(name[3..|name| - 4])
    else None
  }

  /** The pattern with a digit run of any length, `^[0-9]+_(.*)\.mp3$`, which
      accepts every name `'%02d_%s.mp3'` produces. */
  function ParseTrackFileName(name: string): (t: Option<string>)
    ensures t.Some? ==> var k := |name| - |t.value| - 5;
                        k >= 1 && AllDigits(name[..k]) && name == name[..k] + "_" + t.value + ".mp3"
  {
    var k := LeadingDigits(name);
    if k >= 1 && k + 5 <= |name| && name[k] == '_' && EndsWith(name, ".mp3")
       && '\n' !in name[k + 1..|name| - 4]
    then Some(name[k + 1..|name| - 4])
    else None
  }

  /** Playlist.get_track's pattern `^([0-9]+) - [^/]+\.mp3$`: the position
      the name carries, if it matches. */
  function ParsePlaylistFileName(name: string): (n: Option<nat>)
    ensures n.Some? ==> var k := LeadingDigits(name);
                        k >= 1 && n.value == ParseDigits(name[..k]) && StartsWith(name[k..], " - ")
                        && IsMp3Name(name) && '/' !in name[k..]
  {
    var k := LeadingDigits(name);
    if k >= 1 && StartsWith(name[k..], " - ") && IsMp3Name(name[k + 3..]) && '/' !in name[k + 3..]
    then
      var t := name[k + 3..];
      assert name[k..] == " - " + t;
      assert name[|name| - 4..] == t[|t| - 4..];
      Some(ParseDigits(name[..k]))
    else None
  }

  // ---------------------------------------------------------------------
  // Round trips

  /** Two pieces without `/`, joined by one, split back into the two. */
  lemma SplitTwo(a: string, b: string)
    requires '/' !in a && '/' !in b
    ensures Split(a + "/" + b, '/') == [a, b]
  {
    SplitCons(a, '/', b);
    SplitNone(b, '/');
  }

  /** Three pieces without `/`, joined by it, split back into the three. */
  lemma SplitThree(a: string, b: string, c: string)
    requires '/' !in a && '/' !in b && '/' !in c
    ensures Split(a + "/" + b + "/" + c, '/') == [a, b, c]
  {
    var bc := b + "/" + c;
    assert Split(bc, '/') == [b, c] by { SplitTwo(b, c); }
    assert a + "/" + b + "/" + c == a + "/" + bc;
    SplitCons(a, '/', bc);
  }

  /** Splitting `/artists/<below>`. */
  lemma ArtistsPrefixSplit(below: string)
    ensures Split("/artists/" + below, '/') == ["", "artists"] + Split(below, '/')
  {
    var more := "artists" + "/" + below;
    assert "/artists/" + below == "" + ['/'] + more;
    assert more == "artists" + ['/'] + below;
    SplitCons("", '/', more);
    SplitCons("artists", '/', below);
  }

  /** Splitting `/artists/<artist>/<seg>`. */
  lemma ArtistsPathSplitTwo(artist: string, seg: string)
    requires '/' !in artist && '/' !in seg
    ensures Split("/artists/" + artist + "/" + seg, '/') == ["", "artists", artist, seg]
  {
    var below := artist + "/" + seg;
    assert Split(below, '/') == [artist, seg] by { SplitTwo(artist, seg); }
    assert "/artists/" + artist + "/" + seg == "/artists/" + below;
    ArtistsPrefixSplit(below);
  }

  /** Splitting `/artists/<artist>/<seg>/<t>`. */
  lemma ArtistsPathSplitThree(artist: string, seg: string, t: string)
    requires '/' !in artist && '/' !in seg && '/' !in t
    ensures Split("/artists/" + artist + "/" + seg + "/" + t, '/') == ["", "artists", artist, seg, t]
  {
    var below := artist + "/" + seg + "/" + t;
    assert Split(below, '/') == [artist, seg, t] by { SplitThree(artist, seg, t); }
    assert "/artists/" + artist + "/" + seg + "/" + t == "/artists/" + below;
    ArtistsPrefixSplit(below);
  }

  /** A path below `/a…` longer than `/artists` is classified by its
      pieces. */
  lemma ClassifyLong(path: string)
    requires |path| > 8 && path[1] == 'a'
    ensures Classify(path) == ClassifySegments(Split(path, '/'))
  {
    assert path != "/playlists" by { assert "/playlists"[1] == 'p'; }
  }

  /** An artist directory path resolves to its artist. */
  lemma ArtistDirRoundTrip(artist: string)
    requires IsSegment(artist)
    ensures Classify("/artists/" + artist) == ArtistDir(artist)
  {
    var path := "/artists/" + artist;
    assert Split(path, '/') == ["", "artists", artist] by {
      ArtistsPrefixSplit(artist);
      SplitNone(artist, '/');
    }
    assert |path| > 8 && path[1] == 'a';
    ClassifyLong(path);
  }

  /** What the album directory name is made of: a four-digit year, `_`,
      and the formatted title, with no `/` anywhere. */
  lemma AlbumDirNameParts(year: int, normtitle: string)
    requires 0 <= year <= 9999
    requires FormatNames(normtitle) != ""
    ensures var seg := AlbumDirName(year, normtitle);
            '/' !in seg && IsYearAlbum(seg)
            && seg[..4] == ZeroPad(year, 4) && seg[5..] == FormatNames(normtitle)
            && ParseDigits(seg[..4]) == year
  {
    var seg := AlbumDirName(year, normtitle);
    var y := ZeroPad(year, 4);
    ZeroPadRoundTrip(year, 4);
    ZeroPadWidth(year, 4);
    assert |y| == 4;
    FormatNamesSafe(normtitle);
    assert '/' !in seg by {
      assert '/' !in y;
      assert '/' in Unsafe;
    }
    assert seg[..4] == y && seg[4] == '_' && seg[5..] == FormatNames(normtitle);
  }

  /** The directory name generated for an album resolves, below its artist,
      to the year and the formatted title it was generated from, as long as
      the year has four digits. */
  lemma AlbumDirRoundTrip(artist: string, year: int, normtitle: string)
    requires IsSegment(artist)
    requires 0 <= year <= 9999
    requires FormatNames(normtitle) != ""
    ensures var path := "/artists/" + artist + "/" + AlbumDirName(year, normtitle);
            var k := Classify(path);
            k == AlbumDir(artist, ZeroPad(year, 4), FormatNames(normtitle))
            && AllDigits(k.year) && ParseDigits(k.year) == year
  {
    var seg := AlbumDirName(year, normtitle);
    var path := "/artists/" + artist + "/" + seg;
    AlbumDirNameParts(year, normtitle);
    ZeroPadRoundTrip(year, 4);
    ArtistsPathSplitTwo(artist, seg);
    assert |path| > 8 && path[1] == 'a';
    ClassifyLong(path);
  }

  /** A track file name, under its album directory, is recognised as a
      track path with that name. */
  lemma AlbumTrackPathRoundTrip(artist: string, year: int, normtitle: string, trackNumber: int, title: string)
    requires IsSegment(artist)
    requires 0 <= year <= 9999
    requires FormatNames(normtitle) != ""
    ensures var path := "/artists/" + artist + "/" + AlbumDirName(year, normtitle) + "/" + TrackFileName(trackNumber, title);
            Classify(path) == AlbumTrack(artist, ZeroPad(year, 4), FormatNames(normtitle), TrackFileName(trackNumber, title))
  {
    var seg := AlbumDirName(year, normtitle);
    var t := TrackFileName(trackNumber, title);
    var path := "/artists/" + artist + "/" + seg + "/" + t;
    AlbumDirNameParts(year, normtitle);
    ArtistsPathSplitThree(artist, seg, t);
    assert |path| > 8 && path[1] == 'a';
    ClassifyLong(path);
  }

  lemma PadHasNoSlash(n: int, w: nat)
    ensures '/' !in ZeroPad(n, w)
  {
    if n >= 0 {
      DigitsAreDigits(n);
    } else {
      DigitsAreDigits(-n);
    }
  }

  /** As written, the album's track pattern reads back every title whose
      track number has two digits. */
  lemma TrackFileNameRoundTripAsWritten(trackNumber: int, title: string)
    requires 0 <= trackNumber <= 99
    requires '\n' !in FormatNames(title)
    ensures ParseTrackFileNameAsWritten(TrackFileName(trackNumber, title)) == Some(FormatNames(title))
  {
    var name := TrackFileName(trackNumber, title);
    ZeroPadRoundTrip(trackNumber, 2);
    ZeroPadWidth(trackNumber, 2);
    assert name[..2] == ZeroPad(trackNumber, 2);
    assert name[3..|name| - 4] == FormatNames(title);
  }

  /** As written, the album's track pattern rejects the name listed for any
      track numbered 100 or more, whatever its title. */
  lemma TrackFileNameLostAsWritten(trackNumber: int, title: string)
    requires trackNumber >= 100
    ensures ParseTrackFileNameAsWritten(TrackFileName(trackNumber, title)) == None
  {
    var name := TrackFileName(trackNumber, title);
    var d := Digits(trackNumber);
    DigitsTooLong(trackNumber, 2);
    DigitsAreDigits(trackNumber);
    assert ZeroPad(trackNumber, 2) == d;
    assert name[2] == d[2];
  }

  /** With a digit run of any length the pattern reads back the title of
      every listed track with a non-negative number. */
  lemma TrackFileNameRoundTrip(trackNumber: int, title: string)
    requires trackNumber >= 0
    requires '\n' !in FormatNames(title)
    ensures ParseTrackFileName(TrackFileName(trackNumber, title)) == Some(FormatNames(title))
  {
    ZeroPadRoundTrip(trackNumber, 2);
    ParseTrackFileNameOf(ZeroPad(trackNumber, 2), FormatNames(title));
  }

  /** Any digit run, `_`, a title without a line break and `.mp3` read back
      as that title. */
  lemma ParseTrackFileNameOf(p: string, f: string)
    requires p != [] && AllDigits(p) && '\n' !in f
    ensures ParseTrackFileName(p + "_" + f + ".mp3") == Some(f)
  {
    var rest := "_" + f + ".mp3";
    var name := p + "_" + f + ".mp3";
    assert name == p + rest;
    LeadingDigitsSplit(p, rest);
    assert rest[0] == '_' && rest[1..|rest| - 4] == f && EndsWith(rest, ".mp3");
    assert name[|p| + 1..|name| - 4] == rest[1..|rest| - 4];
  }

  /** The formatted middle part of a playlist file name is non-empty and
      holds no `/`. */
  lemma PlaylistMiddleParts(artist: string, album: string, title: string)
    ensures var f := FormatNames(artist + " - " + album + " - " + title);
            f != [] && '/' !in f
  {
    var middle := artist + " - " + album + " - " + title;
    assert '-' in middle by { assert middle[|artist| + 1] == '-'; }
    FormatNamesKeeps(middle, '-');
    FormatNamesSafe(middle);
    assert '/' in Unsafe;
  }

  /** Formatting a playlist file name leaves the padded position, the
      `" - "` after it and the `.mp3` ending alone. */
  lemma PlaylistFormatFrame(d: string, middle: string)
    requires AllDigits(d)
    ensures FormatNames(d + " - " + middle + ".mp3") == d + " - " + FormatNames(middle) + ".mp3"
  {
    var p := d + " - ";
    DigitsPrefixInert(d);
    assert Inert(".mp3");
    FormatNamesFrame(p, middle, ".mp3");
  }

  /** The playlist file name generated for position `n` is the padded
      position, `" - "`, a non-empty middle part without `/`, and `.mp3`. */
  lemma PlaylistFileNameShape(n: int, artist: string, album: string, title: string, lowercase: bool)
    requires n >= 0
    ensures exists m :: (m != [] && '/' !in m &&
      PlaylistFileName(n, artist, album, title, lowercase) == ZeroPad(n, 3) + " - " + m + ".mp3")
  {
    var d := ZeroPad(n, 3);
    var middle := artist + " - " + album + " - " + title;
    var f := FormatNames(middle);
    ZeroPadRoundTrip(n, 3);
    assert d + " - " + middle + ".mp3" == ZeroPad(n, 3) + " - " + artist + " - " + album + " - " + title + ".mp3";
    PlaylistFormatFrame(d, middle);
    PlaylistMiddleParts(artist, album, title);
    var m := Transform(f, lowercase);
    LowerSlash(f);
    if lowercase {
      var p := d + " - ";
      DigitsPrefixInert(d);
      assert d + " - " + f + ".mp3" == p + f + ".mp3";
      LowerConcat(p, f);
      LowerConcat(p + f, ".mp3");
      assert Lower(".mp3") == ".mp3";
    }
    assert PlaylistFileName(n, artist, album, title, lowercase) == d + " - " + m + ".mp3";
  }

  /** A run of digits followed by `" - "` is left alone by formatting and by
      lower-casing. */
  lemma DigitsPrefixInert(d: string)
    requires AllDigits(d)
    ensures forall c :: c in d + " - " ==> c !in Unsafe
    ensures Lower(d + " - ") == d + " - "
  {
    var p := d + " - ";
    forall c | c in p ensures c !in Unsafe {
      var i :| 0 <= i < |p| && p[i] == c;
      if i < |d| { assert IsDigit(d[i]); }
    }
    forall i | 0 <= i < |p| ensures Lower(p)[i] == p[i] {
      if i < |d| { assert IsDigit(d[i]); }
    }
  }

  /** Any name made of a digit run, `" - "`, a non-empty part without `/`
      and `.mp3` matches the playlist pattern and carries the run's value. */
  lemma ParsePlaylistFileNameOf(d: string, m: string)
    requires d != [] && AllDigits(d)
    requires m != [] && '/' !in m
    ensures ParsePlaylistFileName(d + " - " + m + ".mp3") == Some(ParseDigits(d))
  {
    var tail := " - " + m + ".mp3";
    assert d + " - " + m + ".mp3" == d + tail;
    PlaylistTail(m);
    ParsePlaylistAfterDigits(d, tail);
  }

  /** What follows the position in a playlist file name. */
  lemma PlaylistTail(m: string)
    requires m != [] && '/' !in m
    ensures var tail := " - " + m + ".mp3";
            StartsWith(tail, " - ") && IsMp3Name(tail[3..]) && '/' !in tail[3..]
  {
    var tail := " - " + m + ".mp3";
    assert tail == " - " + (m + ".mp3");
    assert tail[3..] == m + ".mp3";
    assert (m + ".mp3")[|m|..] == ".mp3";
  }

  /** A digit run followed by a tail the pattern accepts. */
  lemma ParsePlaylistAfterDigits(d: string, tail: string)
    requires d != [] && AllDigits(d)
    requires StartsWith(tail, " - ") && IsMp3Name(tail[3..]) && '/' !in tail[3..]
    ensures ParsePlaylistFileName(d + tail) == Some(ParseDigits(d))
  {
    assert tail[0] == ' ';
    LeadingDigitsSplit(d, tail);
  }

  /** The playlist file name generated for position `n` reads back as `n`,
      with or without lower-casing, whatever the artist, album and title. */
  lemma PlaylistFileNameRoundTrip(n: int, artist: string, album: string, title: string, lowercase: bool)
    requires n >= 0
    ensures ParsePlaylistFileName(PlaylistFileName(n, artist, album, title, lowercase)) == Some(n)
  {
    var d := ZeroPad(n, 3);
    ZeroPadRoundTrip(n, 3);
    PlaylistFileNameShape(n, artist, album, title, lowercase);
    var m :| m != [] && '/' !in m &&
      PlaylistFileName(n, artist, album, title, lowercase) == d + " - " + m + ".mp3";
    ParsePlaylistFileNameOf(d, m);
  }
}
