/**
 * What the library build does to one catalog record before filing it under
 * an album (`MusicLibrary.__aggregate_albums`, first half of its loop): the
 * artist string is split into a list, the title and artist names are
 * cleaned, missing album fields are filled from the server's album and
 * artist information, the capitalisation of artist names is aligned with
 * the artist information, and the album key is chosen.
 */
module Catalog {
  import opened Wrappers
  import opened Names
  import opened Numbers
  import opened Tags

  /** A value of a catalog record, as the server's JSON carries it.
      `ArtRefs` is the `albumArtRef` list, reduced to its urls. */
  datatype Value = Str(s: string) | Num(n: int) | Strs(l: seq<string>) | ArtRefs(urls: seq<string>)

  type Record = map<string, Value>

  // ---------------------------------------------------------------------
  // int()

  /** Python's `int(s)` on a string: an optional sign and ASCII digits,
      with surrounding whitespace allowed; `None` stands for `ValueError`. */
  function IntOf(s: string): Option<int>
  {
    var t := Strip(s);
    if t == [] then None
    else if t[0] == '-' || t[0] == '+' then
      var d := t[1..];
      if d != [] && AllDigits(d) then
        var v: int := ParseDigits(d);
        Some(if t[0] == '-' then -v else v)
      else None
    else if AllDigits(t) then Some(ParseDigits(t))
    else None
  }

  /** `int()` of a record value: numbers are themselves, strings are
      parsed, anything else fails. */
  function IntValue(v: Value): Option<int>
  {
    match v
    case Num(n) => Some(n)
    case Str(s) => IntOf(s)
    case _ => None
  }

  /** A string without whitespace at either end is its own strip. */
  lemma StripUnpadded(s: string)
    requires s != [] && s[0] !in Whitespace && s[|s| - 1] !in Whitespace
    ensures Strip(s) == s
  {
  }

  /** `int()` reads back what `'%i'` writes. */
  lemma IntOfRoundTrip(n: int)
    ensures IntOf(IntToString(n)) == Some(n)
  {
    var w := IntToString(n);
    if n >= 0 {
      ZeroPadRoundTrip(n, 0);
      assert w == Digits(n);
      DigitsAreDigits(n);
      StripUnpadded(w);
    } else {
      ParseDigitsOf(-n);
      assert w == "-" + Digits(-n);
      assert w[1..] == Digits(-n);
      StripUnpadded(w);
      assert Strip(w)[0] == '-';
      assert Strip(w)[1..] == Digits(-n);
    }
  }

  /** A word that starts with a letter is not a number. */
  lemma IntOfWord(s: string)
    requires s != [] && 'a' <= s[0] <= 'z' && s[|s| - 1] !in Whitespace
    ensures IntOf(s) == None
  {
    StripUnpadded(s);
    assert !IsDigit(s[0]);
  }

  // ---------------------------------------------------------------------
  // __set_key_from_ginfo

  /** `__set_key_from_ginfo` as written: the "is it zero" test applies
      `int()` to the key's name, not to the value stored under it. */
  function SetKeyFromInfoAsWritten(track: Record, ginfo: Record, key: string, toKey: string): (r: Record)
    ensures r == track || (toKey in ginfo && r == track[key := ginfo[toKey]])
    ensures toKey in ginfo && (key !in track || track[key] == Str("")) ==> key in r && r[key] == ginfo[toKey]
    ensures IntOf(key) != Some(0) && key in track && track[key] != Str("") ==> r == track
  {
    var intKey := IntOf(key);
    if (key !in track || track[key] == Str("") || intKey == Some(0)) && toKey in ginfo then
      track[key := ginfo[toKey]]
    else track
  }

  /** `__set_key_from_ginfo` as evidently intended: a field that is missing,
      empty or zero is taken from the server's information when that has
      it; any other field is kept. */
  function SetKeyFromInfo(track: Record, ginfo: Record, key: string, toKey: string): (r: Record)
    ensures r == track || (toKey in ginfo && r == track[key := ginfo[toKey]])
    ensures toKey in ginfo && (key !in track || track[key] == Str("") || IntValue(track[key]) == Some(0))
            ==> key in r && r[key] == ginfo[toKey]
    ensures key in track && track[key] != Str("") && IntValue(track[key]) != Some(0) ==> r == track
    ensures toKey !in ginfo ==> r == track
  {
    var intKey := if key in track then IntValue(track[key]) else None;
    if (key !in track || track[key] == Str("") || intKey == Some(0)) && toKey in ginfo then
      track[key := ginfo[toKey]]
    else track
  }

  /** As written, a zero year is never replaced by the album's year: the
      key name "year" is not a number. */
  lemma ZeroYearKeptAsWritten(track: Record, ginfo: Record)
    requires "year" in track && track["year"] == Num(0) && "year" in ginfo
    ensures SetKeyFromInfoAsWritten(track, ginfo, "year", "year") == track
  {
    IntOfWord("year");
  }

  /** With the correction, a zero year is replaced by the album's year. */
  lemma ZeroYearFilled(track: Record, ginfo: Record)
    requires "year" in track && track["year"] == Num(0) && "year" in ginfo
    ensures SetKeyFromInfo(track, ginfo, "year", "year")["year"] == ginfo["year"]
  {
  }

  // ---------------------------------------------------------------------
  // __cleanup_artist

  /** `__cleanup_artist`: drop a leading "featuring", then a leading "feat",
      stripping whitespace after each. A name that does not start with
      "feat" is kept as it is. */
  function CleanupArtist(a: string): (r: string)
    ensures !StartsWith(a, "feat") ==> r == a
  {
    FeaturingIsFeat(a);
    var a1 := if StartsWith(a, "featuring") then Strip(a[9..]) else a;
    if StartsWith(a1, "feat") then Strip(a1[4..]) else a1
  }

  lemma FeaturingIsFeat(a: string)
    ensures StartsWith(a, "featuring") ==> StartsWith(a, "feat")
  {
    if StartsWith(a, "featuring") {
      assert a[..4] == a[..9][..4];
    }
  }

  /** "featuring X" and "feat X" both become X, for a name X without
      surrounding whitespace that does not itself start with "feat". */
  lemma CleanupArtistDropsPrefix(x: string)
    requires x != [] && x[0] !in Whitespace && x[|x| - 1] !in Whitespace
    requires !StartsWith(x, "feat")
    ensures CleanupArtist("featuring " + x) == x
    ensures CleanupArtist("feat " + x) == x
  {
    var a := "featuring " + x;
    assert a[..9] == "featuring";
    assert a[9..] == " " + x;
    assert StripLeft(" " + x) == StripLeft(x);
    StripUnpadded(x);
    var b := "feat " + x;
    assert b[..4] == "feat";
    assert !StartsWith(b, "featuring") by {
      assert b[4] == ' ';
      assert |b| < 9 || b[..9][4] == ' ';
    }
    assert b[4..] == " " + x;
  }

  // ---------------------------------------------------------------------
  // Splitting the artist string

  /** The artist string with every separator turned into `;`: ", " counts
      as a separator only when " and " or " & " occurs too. */
  function SeparateArtists(s: string): (r: string)
    ensures !Contains(s, " & ") && !Contains(s, " and ") ==> r == s
  {
    var s1 := if Contains(s, " and ") || Contains(s, " & ") then Replace(s, ", ", ";") else s;
    var r := Replace(Replace(s1, " & ", ";"), " and ", ";");
    if !Contains(s, " & ") && !Contains(s, " and ") then
      ReplaceAbsent(s, " & ", ";");
      ReplaceAbsent(s, " and ", ";");
      r
    else r
  }

  /** The artist list of a track: the separated string split at `;`.
      Joining the pieces gives the separated string back, and none holds
      a separator. */
  function SplitArtists(s: string): (r: seq<string>)
    ensures Join(r, ';') == SeparateArtists(s)
    ensures forall i :: 0 <= i < |r| ==> ';' !in r[i]
  {
    SplitJoin(SeparateArtists(s), ';');
    Split(SeparateArtists(s), ';')
  }

  /** A single artist, without any separator in the name, stays one. */
  lemma SplitArtistsSingle(s: string)
    requires !Contains(s, " & ") && !Contains(s, " and ") && ';' !in s
    ensures SplitArtists(s) == [s]
  {
    SplitNone(s, ';');
  }

  // ---------------------------------------------------------------------
  // Capitalisation

  /** The fix for odd capitalisation: a name equal to the artist
      information's name up to case becomes that name. */
  function Recase(x: string, name: Option<string>): (r: string)
    ensures Lower(r) == Lower(x)
    ensures name.Some? && Lower(x) == Lower(name.value) ==> r == name.value
    ensures name.None? || Lower(x) != Lower(name.value) ==> r == x
  {
    if name.Some? && Lower(x) == Lower(name.value) && x != name.value then name.value else x
  }

  // ---------------------------------------------------------------------
  // One record

  /** A string field, when the record has one under `k`. */
  function StrAt(r: Record, k: string): Option<string>
  {
    if k in r && r[k].Str? then Some(r[k].s) else None
  }

  /** A numeric field read through `int()`, when the record has one. */
  function IntAt(r: Record, k: string): Option<int>
  {
    if k in r then IntValue(r[k]) else None
  }

  /** The artist list before cleaning: none when the record names no
      artist; `None` when the field is not a string (the source fails). */
  function ArtistList(r: Record): Option<seq<string>>
  {
    if "artist" !in r then Some([])
    else if r["artist"].Str? then Some(SplitArtists(r["artist"].s))
    else None
  }

  /** The album artist used in the album key of a track without an album
      id: the record's album artist, else its only artist, else "Unknown". */
  function AlbumArtistGuess(r: Record, artists: seq<string>): (a: string)
    ensures StrAt(r, "albumArtist").Some? && StrAt(r, "albumArtist").value != "" ==> a == r["albumArtist"].s
    ensures a != ""
  {
    var aa := StrAt(r, "albumArtist");
    if aa.Some? && aa.value != "" then aa.value
    else if |artists| == 1 && artists[0] != "" then artists[0]
    else "Unknown"
  }

  /** The album information for the record's album id; a record without an
      album id gets none. */
  function AlbumInfoFor(r: Record, albumInfo: map<string, Record>): Record
  {
    var id := StrAt(r, "albumId");
    if id.Some? && id.value in albumInfo then albumInfo[id.value] else map[]
  }

  /** The artist information for the album's first artist id, if it has a
      non-empty one. */
  function ArtistInfoFor(ainfo: Record, artistInfo: map<string, Record>): Record
  {
    if "artistId" in ainfo && ainfo["artistId"].Strs? && |ainfo["artistId"].l| > 0 && ainfo["artistId"].l[0] != ""
       && ainfo["artistId"].l[0] in artistInfo
    then artistInfo[ainfo["artistId"].l[0]]
    else map[]
  }

  /** `__cleanup_artist` applied to every artist of a list. */
  function CleanArtists(l: seq<string>): (r: seq<string>)
    ensures |r| == |l| && forall i :: 0 <= i < |l| ==> r[i] == CleanupArtist(l[i])
  {
    seq(|l|, i requires 0 <= i < |l| => CleanupArtist(l[i]))
  }

  /** A prepared track and the key of the album it belongs to. */
  datatype Prepared = Prepared(info: TrackInfo, key: string)

  /** The record after cleaning and filling: `title` and `artist` are
      replaced by their cleaned forms, then album, year and album artist are
      filled from the server's information. */
  function Filled(r: Record, title: string, artists: seq<string>, ainfo: Record, rinfo: Record): Record
  {
    var r1 := r["title" := Str(title)]["artist" := Strs(artists)];
    SetKeyFromInfo(SetKeyFromInfo(SetKeyFromInfo(r1, ainfo, "album", "name"), ainfo, "year", "year"),
                   rinfo, "albumArtist", "name")
  }

  /** One record through the first half of the build loop. `cleanupName`
      stands for `__cleanup_name`, which returns the cleaned title and the
      artist list with any featured artists appended. `None` marks a record
      the model does not file: a missing title, album, album artist, year,
      id or size, or a field of the wrong kind. The model checks all of
      these up front; the source reads some of them only later, or only
      for the first track of an album, and fails on a few inputs accepted
      here (a non-numeric disc number, an empty list of art references). */
  function Prepare(r: Record, albumInfo: map<string, Record>, artistInfo: map<string, Record>,
                   cleanupName: (string, seq<string>) -> (string, seq<string>)): (p: Option<Prepared>)
    ensures p.Some? && StrAt(r, "albumId").Some? ==> p.value.key == r["albumId"].s
    ensures p.Some? && StrAt(r, "albumId").None? ==> EndsWith(p.value.key, "|||" + p.value.info.album)
  {
    var split := ArtistList(r);
    var title := StrAt(r, "title");
    if split.None? || title.None? then None
    else
      var cleaned := cleanupName(title.value, split.value);
      var artists := CleanArtists(cleaned.1);
      var guess := AlbumArtistGuess(r, artists);
      var ainfo := AlbumInfoFor(r, albumInfo);
      var rinfo := ArtistInfoFor(ainfo, artistInfo);
      var f := Filled(r, cleaned.0, artists, ainfo, rinfo);
      var infoName := StrAt(rinfo, "name");
      var album := StrAt(f, "album");
      var albumArtist := StrAt(f, "albumArtist");
      var year := IntAt(f, "year");
      var id := StrAt(f, "id");
      var size := IntAt(f, "estimatedSize");
      if album.None? || albumArtist.None? || year.None? || id.None? || size.None? then None
      else
        var artUrl := if "albumArtRef" in f && f["albumArtRef"].ArtRefs? && f["albumArtRef"].urls != []
                      then Some(f["albumArtRef"].urls[0]) else None;
        var info := TrackInfo(
          id.value,
          cleaned.0,
          seq(|artists|, i requires 0 <= i < |artists| => Recase(artists[i], infoName)),
          album.value,
          Recase(albumArtist.value, infoName),
          year.value,
          IntAt(f, "discNumber"),
          IntAt(f, "trackNumber"),
          StrAt(f, "genre"),
          size.value,
          artUrl);
        Some(Prepared(info, AlbumKey(r, guess, album.value)))
  }

  /** The key an album is filed under: its album id when the record has
      one, otherwise the guessed album artist and the album title joined
      by `|||`. */
  function AlbumKey(r: Record, guess: string, album: string): (key: string)
    ensures StrAt(r, "albumId").Some? ==> key == r["albumId"].s
    ensures StrAt(r, "albumId").None? ==> EndsWith(key, "|||" + album)
  {
    if StrAt(r, "albumId").Some? then r["albumId"].s
    else
      var key := guess + "|||" + album;
      assert key[|key| - |"|||" + album|..] == "|||" + album;
      key
  }

  /** A field the record itself supplies: present, not empty and not
      zero, so the server's information does not replace it. */
  ghost predicate Supplied(r: Record, k: string)
  {
    k in r && r[k] != Str("") && IntValue(r[k]) != Some(0)
  }

  /** The name of the artist information that fixes capitalisation. */
  function InfoName(r: Record, albumInfo: map<string, Record>, artistInfo: map<string, Record>): Option<string>
  {
    StrAt(ArtistInfoFor(AlbumInfoFor(r, albumInfo), artistInfo), "name")
  }

  /** Filling touches only the title, the artists, the album, the year and
      the album artist: every other field is the record's own. */
  lemma FilledKeeps(r: Record, title: string, artists: seq<string>, ainfo: Record, rinfo: Record, k: string)
    requires k !in {"title", "artist", "album", "year", "albumArtist"}
    ensures k in Filled(r, title, artists, ainfo, rinfo) <==> k in r
    ensures k in r ==> Filled(r, title, artists, ainfo, rinfo)[k] == r[k]
  {
  }

  /** What filling does to the album, the year and the album artist. */
  lemma FilledFills(r: Record, title: string, artists: seq<string>, ainfo: Record, rinfo: Record)
    ensures var f := Filled(r, title, artists, ainfo, rinfo);
            (Supplied(r, "album") ==> f["album"] == r["album"]) &&
            (!Supplied(r, "album") && "name" in ainfo ==> f["album"] == ainfo["name"]) &&
            (!Supplied(r, "album") && "name" !in ainfo ==>
               (("album" in f <==> "album" in r) && ("album" in r ==> f["album"] == r["album"])))
    ensures var f := Filled(r, title, artists, ainfo, rinfo);
            (Supplied(r, "year") ==> f["year"] == r["year"]) &&
            (!Supplied(r, "year") && "year" in ainfo ==> f["year"] == ainfo["year"]) &&
            (!Supplied(r, "year") && "year" !in ainfo ==>
               (("year" in f <==> "year" in r) && ("year" in r ==> f["year"] == r["year"])))
    ensures var f := Filled(r, title, artists, ainfo, rinfo);
            (Supplied(r, "albumArtist") ==> f["albumArtist"] == r["albumArtist"]) &&
            (!Supplied(r, "albumArtist") && "name" in rinfo ==> f["albumArtist"] == rinfo["name"]) &&
            (!Supplied(r, "albumArtist") && "name" !in rinfo ==>
               (("albumArtist" in f <==> "albumArtist" in r) && ("albumArtist" in r ==> f["albumArtist"] == r["albumArtist"])))
  {
  }

  /** A prepared title is the cleaned title, and each artist is an artist
      of the cleaned list with "feat"/"featuring" dropped and its
      capitalisation fixed. */
  lemma PreparedNames(r: Record, albumInfo: map<string, Record>, artistInfo: map<string, Record>,
                      cleanupName: (string, seq<string>) -> (string, seq<string>))
    requires Prepare(r, albumInfo, artistInfo, cleanupName).Some?
    ensures StrAt(r, "title").Some? && ArtistList(r).Some?
    ensures var info := Prepare(r, albumInfo, artistInfo, cleanupName).value.info;
            var cleaned := cleanupName(StrAt(r, "title").value, ArtistList(r).value);
            info.title == cleaned.0 && |info.artists| == |cleaned.1| &&
            forall i :: 0 <= i < |cleaned.1| ==>
              info.artists[i] == Recase(CleanupArtist(cleaned.1[i]), InfoName(r, albumInfo, artistInfo))
  {
  }

  /** The album comes from the record when it supplies one, and otherwise
      from the album information when that names the album. */
  lemma PreparedAlbumName(r: Record, albumInfo: map<string, Record>, artistInfo: map<string, Record>,
                          cleanupName: (string, seq<string>) -> (string, seq<string>))
    requires Prepare(r, albumInfo, artistInfo, cleanupName).Some?
    ensures var info := Prepare(r, albumInfo, artistInfo, cleanupName).value.info;
            var ainfo := AlbumInfoFor(r, albumInfo);
            (Supplied(r, "album") ==> r["album"] == Str(info.album)) &&
            (!Supplied(r, "album") && "name" in ainfo ==> ainfo["name"] == Str(info.album)) &&
            (!Supplied(r, "album") && "name" !in ainfo ==> "album" in r && r["album"] == Str(info.album))
  {
    var split := ArtistList(r).value;
    var cleaned := cleanupName(StrAt(r, "title").value, split);
    var ainfo := AlbumInfoFor(r, albumInfo);
    var rinfo := ArtistInfoFor(ainfo, artistInfo);
    FilledFills(r, cleaned.0, CleanArtists(cleaned.1), ainfo, rinfo);
  }

  /** The year comes from the record when it supplies a non-zero one, and
      otherwise from the album information when that has a year. */
  lemma PreparedYear(r: Record, albumInfo: map<string, Record>, artistInfo: map<string, Record>,
                     cleanupName: (string, seq<string>) -> (string, seq<string>))
    requires Prepare(r, albumInfo, artistInfo, cleanupName).Some?
    ensures var info := Prepare(r, albumInfo, artistInfo, cleanupName).value.info;
            var ainfo := AlbumInfoFor(r, albumInfo);
            (Supplied(r, "year") ==> IntValue(r["year"]) == Some(info.year)) &&
            (!Supplied(r, "year") && "year" in ainfo ==> IntValue(ainfo["year"]) == Some(info.year)) &&
            (!Supplied(r, "year") && "year" !in ainfo ==> "year" in r && IntValue(r["year"]) == Some(info.year))
  {
    var split := ArtistList(r).value;
    var cleaned := cleanupName(StrAt(r, "title").value, split);
    var ainfo := AlbumInfoFor(r, albumInfo);
    var rinfo := ArtistInfoFor(ainfo, artistInfo);
    FilledFills(r, cleaned.0, CleanArtists(cleaned.1), ainfo, rinfo);
  }

  /** The album artist comes from the record when it supplies one, with its
      capitalisation fixed, and otherwise is the artist information's
      name when there is one. */
  lemma PreparedAlbumArtist(r: Record, albumInfo: map<string, Record>, artistInfo: map<string, Record>,
                            cleanupName: (string, seq<string>) -> (string, seq<string>))
    requires Prepare(r, albumInfo, artistInfo, cleanupName).Some?
    ensures var info := Prepare(r, albumInfo, artistInfo, cleanupName).value.info;
            var rinfo := ArtistInfoFor(AlbumInfoFor(r, albumInfo), artistInfo);
            var name := InfoName(r, albumInfo, artistInfo);
            (Supplied(r, "albumArtist") ==>
               (StrAt(r, "albumArtist").Some? && info.albumArtist == Recase(r["albumArtist"].s, name))) &&
            (!Supplied(r, "albumArtist") && "name" in rinfo ==> rinfo["name"] == Str(info.albumArtist)) &&
            (!Supplied(r, "albumArtist") && "name" !in rinfo ==> StrAt(r, "albumArtist") == Some(info.albumArtist))
  {
    var split := ArtistList(r).value;
    var cleaned := cleanupName(StrAt(r, "title").value, split);
    var ainfo := AlbumInfoFor(r, albumInfo);
    var rinfo := ArtistInfoFor(ainfo, artistInfo);
    FilledFills(r, cleaned.0, CleanArtists(cleaned.1), ainfo, rinfo);
  }

  /** Id, size, disc and track number, genre and cover are the record's
      own; the cover is the first art URL, when there is one. */
  lemma PreparedPassed(r: Record, albumInfo: map<string, Record>, artistInfo: map<string, Record>,
                       cleanupName: (string, seq<string>) -> (string, seq<string>))
    requires Prepare(r, albumInfo, artistInfo, cleanupName).Some?
    ensures var info := Prepare(r, albumInfo, artistInfo, cleanupName).value.info;
            StrAt(r, "id") == Some(info.id) && IntAt(r, "estimatedSize") == Some(info.estimatedSize) &&
            info.discNumber == IntAt(r, "discNumber") && info.trackNumber == IntAt(r, "trackNumber") &&
            info.genre == StrAt(r, "genre")
    ensures var info := Prepare(r, albumInfo, artistInfo, cleanupName).value.info;
            info.artUrl.Some? <==> "albumArtRef" in r && r["albumArtRef"].ArtRefs? && r["albumArtRef"].urls != []
    ensures var info := Prepare(r, albumInfo, artistInfo, cleanupName).value.info;
            info.artUrl.Some? ==> info.artUrl.value == r["albumArtRef"].urls[0]
  {
    var title := StrAt(r, "title").value;
    var cleaned := cleanupName(title, ArtistList(r).value);
    var artists := CleanArtists(cleaned.1);
    var ainfo := AlbumInfoFor(r, albumInfo);
    var rinfo := ArtistInfoFor(ainfo, artistInfo);
    var f := Filled(r, cleaned.0, artists, ainfo, rinfo);
    FilledKeeps(r, cleaned.0, artists, ainfo, rinfo, "id");
    FilledKeeps(r, cleaned.0, artists, ainfo, rinfo, "estimatedSize");
    FilledKeeps(r, cleaned.0, artists, ainfo, rinfo, "discNumber");
    FilledKeeps(r, cleaned.0, artists, ainfo, rinfo, "trackNumber");
    FilledKeeps(r, cleaned.0, artists, ainfo, rinfo, "genre");
    FilledKeeps(r, cleaned.0, artists, ainfo, rinfo, "albumArtRef");
  }
}
