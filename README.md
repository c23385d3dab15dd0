# GMusicFS core in Dafny

GMusicFS presents a Google Play Music library as a read-only FUSE
filesystem. It has three top-level directories:

- `/artists/<artist>/<year>_<album>/<nn>_<title>.mp3` holds the albums of an album artist. Multi-disc albums are split into one album per disc.
- `/playlists/<playlist>/<nnn> - <artist> - <album> - <title>.mp3` holds the user's playlists.
- `/` lists the two directories above.

Each track file is virtual, laid out as:

1. an ID3v2 tag made from the catalog record;
2. the audio stream, fetched lazily and padded with zero bytes to the size announced in advance;
3. a 128-byte ID3v1 trailer.

This project models the core of `gmusicfs/gmusicfs.py`, taking the
`556157a` side of its merge conflicts (and the `HEAD` side only for the
playlist path patterns). It models:

- the name normalisation `formatNames`;
- the catalog preparation of `__aggregate_albums`: artist splitting,
  `__cleanup_artist`, the album-artist guess, `__set_key_from_ginfo`, re-casing
  and the album key;
- grouping tracks into albums and artists, and the multi-disc split;
- the `Playlist`, `Artist` and `Album` classes and the `MusicLibrary` lookups;
- the file-name formats and path patterns of the filesystem;
- the directory listings, and `open`, `read` and `release` on a file handle.

Modules:

| module | file | models |
|---|---|---|
| `Names` | `names.dfy` | `formatNames`; Python's `replace`, `lower`, `strip`, `split` on names |
| `Numbers` | `numbers.dfy` | `%0Nd` formatting and parsing of decimal numbers |
| `Paths` | `paths.dfy` | directory and file names, and the path patterns that parse them back |
| `Tags` | `tags.dfy` | the catalog record of a track and the tag frames `gen_tag` sets |
| `Albums` | `album.dfy` | the `Album` and `Artist` classes and a track's mutable size field |
| `Catalog` | `catalog.dfy` | the per-record preparation of `__aggregate_albums` |
| `DiscSplit` | `discsplit.dfy` | the separation of multi-disc albums |
| `Playlists` | `playlist.dfy` | the `Playlist` class, its lookups and its listing |
| `Library` | `library.dfy` | `rescan` / `__aggregate_albums` and the `MusicLibrary` lookups |
| `Maps` | `maps.dfy` | map helpers; iteration over a dictionary's keys in some order |
| `Compositor` | `compositor.dfy` | the stream object and `GMusicFS`: `open`, `read`, `release`, `readdir` |

Python dictionaries that the source fills in place become Dafny classes
(`Album`, `Artist`, `MusicLibrary`, `Filesystem`, `Stream`) or values held in
their fields. A catalog track is a `TrackInfo` value plus a `Track` object
that carries the one field the source writes later, `tagSize`.

The remote calls become parameters:

- the album and artist information Google returns are maps;
- the album-art download is `artStore`;
- the audio stream of a track id is `connect`;
- the eyeD3 tag renderer is a `Renderer`.

A `Renderer` is constrained only by `Faithful`: rendering a tag depends on
the tag's frames and on the size of its cover image, not on the cover's bytes.

The model also assumes `ArtAgrees`: the size the art HEAD probe reports
(`Content-Length`, line 217) is the length of the image that is then
downloaded. `Open`'s promise that the announced size equals the size of the
served tag, and `FakeAndRealCoverAgree`, hold only under that assumption.

## Model

| member | source | states |
|---|---|---|
| Names.FormatNamesSafe | gmusicfs/gmusicfs.py:48-52 | a formatted name contains no slash, colon, question mark, double quote or backquote |
| Names.FormatNamesIdempotent | gmusicfs/gmusicfs.py:48-52 | formatting an already formatted name changes nothing (the album title is formatted twice, at lines 586 and 590) |
| Names.FormatNamesKeeps | gmusicfs/gmusicfs.py:48-52 | every character other than the five unsafe ones and a space survives formatting |
| Names.FormatNamesFrame | gmusicfs/gmusicfs.py:48-52 | formatting commutes with a safe prefix and a suffix free of `:`, `/` and removed characters |
| Names.ReplaceRemovesChar | gmusicfs/gmusicfs.py:48-50 | replacing a one-character pattern by text without it leaves no occurrence |
| Names.RemoveCharsMembership | gmusicfs/gmusicfs.py:51 | a character survives removal exactly when it is in the input and not in the removed class |
| Names.SplitJoin | gmusicfs/gmusicfs.py:532 | joining the pieces of `split(sep)` with `sep` gives back the string, and no piece contains `sep` |
| Names.LowerIdempotent | gmusicfs/gmusicfs.py:119 | lower-casing a lower-cased key changes nothing |
| Numbers.ZeroPadRoundTrip | gmusicfs/gmusicfs.py:969 | a zero-padded number is all digits, at least as wide as asked, and parses back to the number |
| Numbers.ZeroPadWidth | gmusicfs/gmusicfs.py:969 | a number below 10^w pads to exactly w digits |
| Numbers.LeadingDigitsSplit | gmusicfs/gmusicfs.py:63 | the leading run of digits of `digits + rest` is exactly `digits` when `rest` starts with a non-digit |
| Paths.ArtistDirRoundTrip | gmusicfs/gmusicfs.py:655 | `/artists/<a>` matches the artist pattern and yields `a` for any slash-free non-empty name |
| Paths.AlbumDirRoundTrip | gmusicfs/gmusicfs.py:656-657 | a listed album directory `<yyyy>_<title>` under an artist matches the album pattern, and the year group parses back to the year |
| Paths.AlbumTrackPathRoundTrip | gmusicfs/gmusicfs.py:667 | the path of a listed track inside a listed album matches the track pattern, with the artist, year, album and file name as groups |
| Paths.Classify | gmusicfs/gmusicfs.py:655-667 | `/`, `/artists` and `/playlists` are recognised exactly; an album path's year group is four digits and its album group non-empty; a track group ends in `.mp3`; artist and playlist groups are non-empty |
| Paths.AlbumDirNameParts | gmusicfs/gmusicfs.py:969 | an album directory name is slash-free, four year digits, `_`, then the formatted title |
| Paths.AlbumDirName | gmusicfs/gmusicfs.py:969 | an album directory name holds no slash |
| Paths.TrackFileName | gmusicfs/gmusicfs.py:988 | a track file name `%02d_<title>.mp3` holds no slash and ends in `.mp3`, the shape the track path pattern accepts |
| Paths.ParseTrackFileNameAsWritten | gmusicfs/gmusicfs.py:156 | a name the pattern `^[0-9]{2}_(.*)\.mp3$` accepts is two digits, `_`, the captured title and `.mp3`, seven characters longer than the title |
| Paths.ParseTrackFileName | gmusicfs/gmusicfs.py:156 | a name the corrected pattern `^[0-9]+_(.*)\.mp3$` accepts is a non-empty digit run, `_`, the captured title and `.mp3` |
| Paths.TrackFileNameRoundTripAsWritten | gmusicfs/gmusicfs.py:156 | the album's file-name pattern as written recovers the formatted title of a listed name when the track number is below 100 |
| Paths.TrackFileNameLostAsWritten | gmusicfs/gmusicfs.py:156 | the pattern as written matches no listed name whose track number is 100 or more |
| Paths.TrackFileNameRoundTrip | gmusicfs/gmusicfs.py:156 | the corrected pattern recovers the formatted title from every listed file name |
| Paths.ParseTrackFileNameOf | gmusicfs/gmusicfs.py:156 | the corrected pattern reads back the title from any digit run, `_`, a title without a line break, and `.mp3` |
| Paths.PlaylistFileNameShape | gmusicfs/gmusicfs.py:997 | a playlist file name is the three-digit position, ` - `, a non-empty slash-free middle, and `.mp3` |
| Paths.ParsePlaylistFileName | gmusicfs/gmusicfs.py:63 | a name the playlist pattern accepts starts with a digit run whose value is the result, followed by ` - `, ends in `.mp3`, and holds no slash after the digits |
| Paths.ParsePlaylistFileNameOf | gmusicfs/gmusicfs.py:63 | a name of digits, ` - `, slash-free text and `.mp3` matches the playlist pattern and yields the digits' value |
| Paths.PlaylistFileNameRoundTrip | gmusicfs/gmusicfs.py:997 | the playlist pattern parses every listed playlist file name back to its position number |
| Tags.GenTag | gmusicfs/gmusicfs.py:163-198 | the tag's album, title, joined artists, track number and genre come from the record; the disc number is set iff the album shows it and the record has one; the TPE2 frame iff the album artist differs from a single artist; the date iff the year is non-zero; the cover iff the record has art and there is image data |
| Tags.GenTagSameShape | gmusicfs/gmusicfs.py:184-197 | two tags from one record with covers of equal length have the same frames |
| Tags.ZeroBytes | gmusicfs/gmusicfs.py:917 | `'\0' * n` has length `max(n, 0)` and only zero bytes |
| Albums.Infos | gmusicfs/gmusicfs.py:240 | the catalog records of an album's tracks, in track order |
| Albums.DiscsOfDistinct | gmusicfs/gmusicfs.py:237-238 | the disc list built by `add_track` has no duplicates and holds exactly the disc numbers of the tracks |
| Albums.DiscCountDistinct | gmusicfs/gmusicfs.py:341-342 | the disc count is the number of distinct disc numbers |
| Albums.IndexOfTitle | gmusicfs/gmusicfs.py:289-295 | the first track whose formatted title equals the name, or the track count when none does |
| Albums.CountYearPositive | gmusicfs/gmusicfs.py:325-329 | a year carried by some track is counted at least once |
| Albums.TallyYears | gmusicfs/gmusicfs.py:324-329 | the year tally holds exactly the non-zero years of the tracks, each with its number of tracks |
| Albums.FakeAndRealCoverAgree | gmusicfs/gmusicfs.py:184-197 | the tag built with the zero-filled placeholder cover has the same frames as the one built with the downloaded cover, so the size computed at open time matches the tag served |
| Albums.Album.constructor | gmusicfs/gmusicfs.py:148-161 | a new album has the formatted title, no tracks, no discs, no art, and the disc number hidden |
| Albums.Album.AddTrack | gmusicfs/gmusicfs.py:235-241 | the track is appended, a new disc number is appended to the disc list, the album becomes unsorted, and the disc list stays duplicate-free |
| Albums.Album.GetTracks | gmusicfs/gmusicfs.py:265-281 | the tracks in the order they were added |
| Albums.Album.GetTrack | gmusicfs/gmusicfs.py:283-296 | with the corrected pattern of the second Findings row: a name the pattern rejects gives nothing; otherwise the first track whose formatted title equals the captured title, or nothing |
| Albums.Album.GetYear | gmusicfs/gmusicfs.py:320-336 | 0 exactly when no track has a non-zero year; otherwise a year some track carries that no other non-zero year outnumbers |
| Albums.Album.GetDiscCount | gmusicfs/gmusicfs.py:341-342 | the number of distinct disc numbers among the tracks |
| Albums.Album.GetDiscs | gmusicfs/gmusicfs.py:344-345 | a duplicate-free list holding exactly the tracks' disc numbers |
| Albums.Album.CalcSize | gmusicfs/gmusicfs.py:210-233 | a sized track is left alone; otherwise the album adopts the track's art URL if it had none, and the track and every track with its id get size `estimatedSize` plus 128 plus the length of the ID3v2 tag with the placeholder cover |
| Albums.Album.SetArt | gmusicfs/gmusicfs.py:247-251 | the three art fields take the given values and nothing else changes |
| Albums.Album.CopyArtTo | gmusicfs/gmusicfs.py:243-245 | the other album gets this album's art URL, size and data, and this album is unchanged |
| Albums.Album.LoadArt | gmusicfs/gmusicfs.py:253-263 | true iff there is an art URL, and then the art is the downloaded image; nothing else changes |
| Albums.Album.TagFor | gmusicfs/gmusicfs.py:163-198 | the tag `gen_tag` builds without the placeholder, after loading the art when the track has art and none is loaded |
| Albums.Artist.constructor | gmusicfs/gmusicfs.py:111-115 | the directory name is the formatted name and the album map is empty |
| Albums.Artist.AddAlbum | gmusicfs/gmusicfs.py:117-119 | the album is filed under its lower-cased title, replacing any album there |
| Albums.Artist.GetAlbum | gmusicfs/gmusicfs.py:125-127 | some album iff the lower-cased title is filed, and then that album |
| Albums.GetAlbumAnyCase | gmusicfs/gmusicfs.py:125-127 | an added album is found under any spelling of its title that lower-cases to the same key |
| Catalog.IntOfRoundTrip | gmusicfs/gmusicfs.py:426 | Python's `int()` parses the decimal text of every integer back to it |
| Catalog.IntOfWord | gmusicfs/gmusicfs.py:426-428 | a key name starting with a letter does not parse as an integer |
| Catalog.SetKeyFromInfoAsWritten | gmusicfs/gmusicfs.py:420-433 | the record is unchanged or takes the info's value; it is filled when the key is missing or empty, and left alone when it is set and non-empty, whatever its value |
| Catalog.SetKeyFromInfo | gmusicfs/gmusicfs.py:420-433 | as above, but a key whose value is the number 0 is also filled from the info |
| Catalog.ZeroYearKeptAsWritten | gmusicfs/gmusicfs.py:426-430 | as written, a year of 0 is kept even when the album info has a year |
| Catalog.ZeroYearFilled | gmusicfs/gmusicfs.py:426-430 | corrected, a year of 0 takes the album info's year |
| Catalog.CleanupArtist | gmusicfs/gmusicfs.py:435-440 | a name not starting with `feat` is unchanged |
| Catalog.CleanupArtistDropsPrefix | gmusicfs/gmusicfs.py:435-440 | `featuring X` and `feat X` both clean to `X` |
| Catalog.CleanArtists | gmusicfs/gmusicfs.py:483-484 | each artist of the list is cleaned in place, and the list keeps its length |
| Catalog.SeparateArtists | gmusicfs/gmusicfs.py:527-531 | an artist string without ` & ` or ` and ` is left unchanged, commas included |
| Catalog.SplitArtists | gmusicfs/gmusicfs.py:527-532 | the artist list joined by `;` is the separated artist string, and no artist contains `;` |
| Catalog.SplitArtistsSingle | gmusicfs/gmusicfs.py:527-532 | an artist string with no ` & `, ` and ` or `;` is one artist |
| Catalog.Recase | gmusicfs/gmusicfs.py:571-576 | the name takes the artist info's spelling iff they agree ignoring case; otherwise it is kept |
| Catalog.AlbumArtistGuess | gmusicfs/gmusicfs.py:538-543 | a non-empty album artist is kept, and the guess is never empty |
| Catalog.Prepare | gmusicfs/gmusicfs.py:526-581 | the album key is the album id when there is one, and otherwise ends in a three-bar separator followed by the album name; the prepared fields are stated by the `Prepared…` lemmas |
| Catalog.AlbumKey | gmusicfs/gmusicfs.py:578-581 | a record with an album id is filed under that id; one without is filed under a key ending in a three-bar separator followed by its album title |
| Catalog.PreparedNames | gmusicfs/gmusicfs.py:480-484 | the prepared title is the cleaned title; the prepared artists are the cleaned artists, each passed through `__cleanup_artist` and re-cased to the artist information's name |
| Catalog.PreparedAlbumName | gmusicfs/gmusicfs.py:567 | the album is the record's when supplied, otherwise the album information's `name`, otherwise the record's |
| Catalog.PreparedYear | gmusicfs/gmusicfs.py:568 | the year is the record's when supplied and non-zero, otherwise the album information's, otherwise the record's |
| Catalog.PreparedAlbumArtist | gmusicfs/gmusicfs.py:569-573 | a supplied album artist is kept and re-cased to the artist information's name; otherwise it is that information's `name`, otherwise the record's |
| Catalog.PreparedPassed | gmusicfs/gmusicfs.py:213-237 | id, estimated size, disc and track numbers and genre come from the record; the art URL is present iff the record has art references, and is then the first one's |
| Catalog.FilledFills | gmusicfs/gmusicfs.py:567-569 | each of album, year and album artist keeps a supplied value, else takes the information's value, else stays as in the record |
| Catalog.FilledKeeps | gmusicfs/gmusicfs.py:567-569 | filling leaves every key other than title, artist, album, year and album artist as in the record |
| DiscSplit.FilterDisc | gmusicfs/gmusicfs.py:607-609 | the tracks moved to a disc album all carry that disc number and come from the album |
| DiscSplit.FilterDiscOneDisc | gmusicfs/gmusicfs.py:607-609 | a disc album made for a disc the album has holds exactly that one disc |
| DiscSplit.SplitKeepsEveryTrack | gmusicfs/gmusicfs.py:601-609 | across the disc albums, every track of a numbered album is placed exactly once |
| DiscSplit.SplitKeepsAlbumTracks | gmusicfs/gmusicfs.py:601-611 | with no colliding keys, a split multi-disc album's key is gone, each of its discs has an album holding exactly that disc's tracks in order, and the disc albums together hold all its tracks |
| DiscSplit.DiscKeyShape | gmusicfs/gmusicfs.py:602-610 | a disc album is filed under the formatted `<album> - Disc ` followed by the disc number |
| DiscSplit.DiscKeyInjective | gmusicfs/gmusicfs.py:602-610 | different discs of an album are filed under different keys |
| DiscSplit.DiscAlbum | gmusicfs/gmusicfs.py:602-609 | a new album titled for the disc, with the parent's art, the disc number shown, and exactly the parent's tracks of that disc |
| DiscSplit.SplitAlbumResult | gmusicfs/gmusicfs.py:610-611 | after the split the shelf holds the old keys except the split album's, plus one key per disc holding that disc's album |
| DiscSplit.SplitAlbum | gmusicfs/gmusicfs.py:600-611 | a multi-disc album is replaced by one disc album per disc, in disc order, filed under the disc keys |
| DiscSplit.SeparateDiscs | gmusicfs/gmusicfs.py:596-611 | afterwards no album spans more than one disc; each album is either the one that was under its key before or the album of one disc of a multi-disc album, filed under that disc's key; no single-disc album's key is lost; with no colliding keys, every multi-disc album is replaced by one album per disc holding exactly that disc's tracks |
| Playlists.Resolve | gmusicfs/gmusicfs.py:72-76 | an entry with an inline track is that track with the entry's id; otherwise the library's track with that id, or nothing |
| Playlists.NewPlaylist | gmusicfs/gmusicfs.py:61-77 | the directory name is the formatted, stripped name, and the tracks are the resolved entries in order |
| Playlists.GetTrack | gmusicfs/gmusicfs.py:93-99 | no match iff the name does not fit the pattern; out of range iff the number is past the end; a number n from 1 to the track count finds slot n (counting from 1); 0 finds the last slot, as Python's index -1 does |
| Playlists.ListPlaylist | gmusicfs/gmusicfs.py:991-999 | when every entry resolved, `.`, `..` and then one numbered name per track in order; fails otherwise |
| Playlists.ListedNameResolves | gmusicfs/gmusicfs.py:93-99 | looking up the listed name of a track gives back exactly that track |
| Library.PreparedAppend | gmusicfs/gmusicfs.py:582-594 | filing one more record leaves the album order and index alone for a known key; a new key is appended to the order and filed under its album artist and formatted title |
| Library.GroupsAppend | gmusicfs/gmusicfs.py:582-594 | filing one more record appends its track to the track list of its key, starting a new list for a new key |
| Library.Groups | gmusicfs/gmusicfs.py:582-594 | every album key in the grouping has at least one track |
| Library.Order | gmusicfs/gmusicfs.py:582-587 | every key in the creation order is an album key of the grouping |
| Library.Index | gmusicfs/gmusicfs.py:588-593 | every album key filed under an artist and title is a key of the grouping |
| Library.GroupsUnder | gmusicfs/gmusicfs.py:582-594 | an album key exists iff some record has it, and its tracks are exactly those records, in order |
| Library.OrderKeys | gmusicfs/gmusicfs.py:582-587 | the album creation order lists each key once |
| Library.AddAlbum | gmusicfs/gmusicfs.py:584-593 | a new album holding only the record's track, filed under its album artist and formatted title, appended to the album list |
| Library.AddToAlbum | gmusicfs/gmusicfs.py:594 | the record's track is appended to its album, and no other album changes |
| Library.FileRecord | gmusicfs/gmusicfs.py:582-594 | filing one record keeps the album index equal to the grouping of the records filed so far; a known key keeps the map, an unknown key adds exactly one fresh album |
| Library.PrepareAll | gmusicfs/gmusicfs.py:526-581 | every record prepared in order, or failure iff some record cannot be prepared |
| Library.GroupAll | gmusicfs/gmusicfs.py:582-594 | the album index is the grouping of the prepared records, with fresh albums |
| Library.GroupedByKey | gmusicfs/gmusicfs.py:582-594 | an album exists for a key iff some record has the key, and its tracks are exactly those records in order |
| Library.AlbumsInFirstSeenOrder | gmusicfs/gmusicfs.py:584-587 | the album list holds each album once, in the order its key first occurs |
| Library.SplitAll | gmusicfs/gmusicfs.py:596-611 | succeeds iff every multi-disc album numbers all its tracks, and then every artist keeps a map split as `SeparateDiscs` states: with no colliding keys, each multi-disc album replaced by one album per disc holding exactly that disc's tracks |
| Library.Build | gmusicfs/gmusicfs.py:522-611 | succeeds iff every record is prepared and every multi-disc album numbers all its discs; then the index is the disc-split grouping; a record that cannot be prepared leaves no artists and no albums |
| Library.BuiltShape | gmusicfs/gmusicfs.py:522-611 | after a build, every record was prepared, the artists are the album artists filed, and the album list follows key order |
| Library.LoadedKeys | gmusicfs/gmusicfs.py:618-623 | a playlist key is present iff it was already there or some loaded playlist has it |
| Library.LoadedLast | gmusicfs/gmusicfs.py:618-623 | when several playlists share a lower-cased name, the last one wins |
| Library.LoadedKeeps | gmusicfs/gmusicfs.py:618-623 | a playlist whose key no new playlist takes is kept |
| Library.Loaded | gmusicfs/gmusicfs.py:618-623 | loading playlists never removes a key |
| Library.LoadAll | gmusicfs/gmusicfs.py:618-623 | the loop files each playlist under its lower-cased directory name |
| Library.LookupLower | gmusicfs/gmusicfs.py:629-631 | the lookup of `get_artist` and `get_playlist` as written: some value iff the lower-cased name is a key, and then the value filed under it |
| Library.MixedCaseArtistUnreachable | gmusicfs/gmusicfs.py:629-631 | an artist filed as `ABBA` is not found by its own name |
| Library.GetArtistFrom | gmusicfs/gmusicfs.py:629-631 | the filed name is found as is; otherwise the lookup falls back to the lower-cased name |
| Library.FiledArtistFound | gmusicfs/gmusicfs.py:629-631 | every filed artist is found by its name, and the lookup agrees with the original on lower-case names |
| Library.ListedPlaylistFound | gmusicfs/gmusicfs.py:954-956 | a listed playlist directory name finds the playlist filed last under that name, whether or not names are lower-cased |
| Library.MusicLibrary.constructor | gmusicfs/gmusicfs.py:361-366 | the library starts with no artists, albums, playlists or tracks |
| Library.MusicLibrary.GetArtists | gmusicfs/gmusicfs.py:625-627 | exactly the album maps of the filed artists |
| Library.MusicLibrary.GetArtist | gmusicfs/gmusicfs.py:629-631 | with the corrected lookup of the third Findings row: a filed artist is found by its name, and any result is a filed artist's albums |
| Library.MusicLibrary.GetPlaylists | gmusicfs/gmusicfs.py:633-635 | exactly the filed playlists |
| Library.MusicLibrary.GetPlaylist | gmusicfs/gmusicfs.py:637-639 | some playlist iff the lower-cased name is filed, and then that playlist |
| Library.MusicLibrary.GetTrack | gmusicfs/gmusicfs.py:641-643 | some track iff the id is filed, and then that track |
| Library.MusicLibrary.Rescan | gmusicfs/gmusicfs.py:371-382 | on success, the index and album list are those of the build and the playlists are loaded; on failure the playlists are unchanged |
| Compositor.Take | gmusicfs/gmusicfs.py:914 | `u.read(n)` returns at most n bytes, exactly n while the stream lasts, the next bytes of the stream, and the rest of the stream for negative n |
| Compositor.HeadPart | gmusicfs/gmusicfs.py:873-874 | the served part of the ID3v2 header is at most `size` bytes, and the exact window when it lies inside the header |
| Compositor.RestSize | gmusicfs/gmusicfs.py:873-876 | what remains to serve after the header is non-negative and reaches the same end, or is nothing |
| Compositor.Request | gmusicfs/gmusicfs.py:913-925 | the stream is read iff the read starts before the trailer, asks for bytes, and reaches past the header; then for the bytes between them |
| Compositor.ReadOutStream | gmusicfs/gmusicfs.py:913-935 | a read that reaches the stream serves the bytes read, and advances the stream position and byte count |
| Compositor.TrailerOnly | gmusicfs/gmusicfs.py:869-871 | a read at or past the trailer start serves a slice of the ID3v1 trailer and leaves the stream alone |
| Compositor.HeaderOnly | gmusicfs/gmusicfs.py:873-879 | a read inside the ID3v2 header serves that slice of the header and leaves the stream alone |
| Compositor.Compose | gmusicfs/gmusicfs.py:869-935 | a read at or past the trailer start returns at most `size` bytes; a read before the trailer that ends inside the header is that window of the header |
| Compositor.ReadOut | gmusicfs/gmusicfs.py:913-935 | the stream's content is kept and its position never moves back; when the read needs stream bytes, `bytes_read` grows by the bytes from the later of the offset and the header end up to the earlier of the read's end and the trailer start; otherwise the stream is untouched |
| Compositor.ExactSize | gmusicfs/gmusicfs.py:851-937 | a read within the announced file size returns exactly `size` bytes |
| Compositor.VirtualFile | gmusicfs/gmusicfs.py:865 | the virtual file is `tagSize` bytes long: the header, the padded stream, then the trailer |
| Compositor.TrailerWindow | gmusicfs/gmusicfs.py:869-871 | reads at or past the trailer start are windows of the virtual file |
| Compositor.HeaderWindow | gmusicfs/gmusicfs.py:873-879 | reads inside the header are windows of the virtual file |
| Compositor.StreamWindow | gmusicfs/gmusicfs.py:873-935 | reads that reach the stream, with the stream at the read's position, are windows of the virtual file |
| Compositor.ReadWindow | gmusicfs/gmusicfs.py:851-937 | every read, with the stream in position, returns `file[offset:offset+size]` of the virtual file |
| Compositor.ReadKeepsPlace | gmusicfs/gmusicfs.py:925-931 | after a read in the body, the stream is positioned where the next sequential read starts |
| Compositor.ListedTrackFound | gmusicfs/gmusicfs.py:988 | with the corrected pattern of the second Findings row, a listed track file name resolves to the first track of the album with the same formatted title |
| Compositor.Stream.constructor | gmusicfs/gmusicfs.py:800-801 | a fresh stream is at position 0 with `bytes_read` 0 |
| Compositor.Stream.Read | gmusicfs/gmusicfs.py:914 | the next bytes of the stream; the position advances by their number |
| Compositor.Stream.Close | gmusicfs/gmusicfs.py:846-847 | the stream is closed |
| Compositor.Filesystem.constructor | gmusicfs/gmusicfs.py:670-672 | no open files, handles or tags |
| Compositor.Filesystem.Open | gmusicfs/gmusicfs.py:804-841 | the handle is bound to the album and track and to the tag `gen_tag` builds; the track is sized; a track sized here is announced at `estimatedSize` plus 128 plus the length of the rendered ID3v2 tag, the size of the tag it will serve |
| Compositor.Filesystem.OpenStream | gmusicfs/gmusicfs.py:794-802 | the handle gets a fresh stream of its track, with `bytes_read` 0 |
| Compositor.Filesystem.Fetch | gmusicfs/gmusicfs.py:905-931 | the handle's stream, opened if missing, serves its next bytes, and `bytes_read` grows by the bytes requested |
| Compositor.Filesystem.ReadBefore | gmusicfs/gmusicfs.py:873-935 | a read that starts before the trailer serves the header slice, then the stream bytes padded with zeros, then the head of the trailer; the stream is touched only when bytes are needed from it, and its new position and count are those `ReadOut` computes |
| Compositor.Filesystem.Read | gmusicfs/gmusicfs.py:851-937 | fails for an unknown handle or an unsized track; otherwise serves what `ReadOut` composes from the handle's header, trailer and stream, opening the stream only when bytes are needed |
| Compositor.Filesystem.Release | gmusicfs/gmusicfs.py:843-849 | the handle leaves all three tables, its stream is closed, and releasing an unknown handle changes nothing |
| Compositor.Filesystem.ListPlaylists | gmusicfs/gmusicfs.py:954-956 | `.`, `..`, then each playlist's directory name, transformed, once per playlist |
| Compositor.Filesystem.ListArtist | gmusicfs/gmusicfs.py:957-971 | `.`, `..`, then one `<yyyy>_<title>` per album, with the album's most common year |
| Compositor.Filesystem.ListAlbum | gmusicfs/gmusicfs.py:972-990 | sizes every track, then lists `.`, `..` and `<nn>_<title>.mp3` per track in order; fails iff a track has no number |

## Left out

- The network and Google's API are parameters: the catalog records, album and artist information, art downloads and audio streams. Login, device ids, `getDeviceId`, `main` and the FUSE mount are not part of this model.
- The eyeD3 tag rendering (`render_tag`, lines 200-208) is an opaque `Renderer`. Only the frames a tag carries are modelled, not the bytes.
- `__cleanup_name` (lines 442-477) is a regular-expression rewrite of titles. It is a parameter of the build.
- The `true_file_size` HEAD probes that fill `bytes` (`get_tracks`, `get_cover_size`) are not part of this model. Neither are `getattr`/`track_to_stat`, the cover image, `get_cover_url`, `get_track_stream` or `cleanup`.
- Python's `lower()` is modelled as ASCII lower-casing, and `strip()` removes ASCII whitespace only; Python 2's `unicode.strip()` also removes other white space such as U+00A0 and U+2003. A regular expression's `$` also matches before a final newline; the model ignores this and requires titles without newlines in the round trips.
- Library.Build: a record that the model does not prepare (see the `Catalog.Prepare` lines) makes the whole build fail before anything is filed. Where the source raises, it does so part-way through and leaves a partly filled library.
- Catalog.Prepare: checks `id` and `estimatedSize` up front. The source reads them only in `calc_size` (lines 222, 231), so a record without them is filed there and fails only when the album is listed.
- Catalog.Prepare: requires `album`, `year` and `albumArtist` for every record. The source reads them only when the record starts a new album (lines 585-586); `album` is also read for the key of a record without an album id (line 582), and `albumArtist` when the artist information has a name (line 570).
- Catalog.Prepare: a `discNumber` that `int()` cannot parse counts as no disc number. The source raises `ValueError` in `add_track` (line 237).
- Catalog.Prepare: an empty `albumArtRef` list counts as no cover. The source raises `IndexError` in `calc_size` (line 213).
- Catalog.Prepare: the `KeyError`s the source can raise in its progress messages (line 550 reads `album`, line 557 reads the album information's `albumArtist`) are not modelled; the model prepares such records.
- Catalog.Prepare: fills fields with the corrected `SetKeyFromInfo` (first Findings row). On a record whose `year` is 0 and whose album information has a year, it takes that year where the source keeps 0, which changes the album's `<yyyy>_` directory name. `Library.Build` inherits this.
- Albums.Album.GetTrack: parses file names with the corrected pattern `^[0-9]+_` (second Findings row). As written, the pattern `^[0-9]{2}_` finds nothing for names such as `100_x.mp3`, `5_x.mp3` or `007_x.mp3`; on every two-digit name the two agree.
- Compositor.ListedTrackFound: holds for the corrected file-name pattern. As written, a listed track numbered 100 or more is not found (`Paths.TrackFileNameLostAsWritten`).
- Library.MusicLibrary.GetArtist: looks the name up as filed and then lower-cased (`GetArtistFrom`, third Findings row). As written, `get(name.lower())` finds nothing for an artist filed with capitals, such as `ABBA`; the two agree whenever every filed name is in lower case.
- DiscSplit.SeparateDiscs: the source writes the disc albums into the dictionary it walks. When a disc album's key equals another key of that dictionary, or two multi-disc albums produce the same disc key, the outcome depends on the order of the walk. In that case (`SplitFree` false) the model promises only that every album left has at most one disc, is an original album or a disc album of some multi-disc album, and that single-disc albums keep their keys. `Library.SplitAll` and `Library.Build` inherit this.
- Library.MusicLibrary.Rescan: states the prepared records, the artist keys and the album order. What each album holds is stated by `Library.Build`; a heap-independent statement about the albums was not carried through the field assignments.
- Dictionary iteration order (`keys()`, `values()`) is modelled as some order of the keys, each exactly once. The source's order is not modelled.
- Albums.Album.GetTracks: the source sorts by a `track` key that catalog records do not carry, so the stable sort keeps insertion order. That order is what the model returns.
- Under the `556157a` side, `get_artist` returns the album dictionary itself. `artist.get_albums()` and `artist.get_album()` then fail on it in `readdir` and `open`. So `ListArtist` takes that dictionary's albums, `ListAlbum` and `Open` take the album and track directly, and the path lookups of `open` are not part of this model.
- The `/artists` listing (lines 951-953) reads `.dirname` of each album dictionary, which fails for any non-empty library. It is not part of this model. The root listing is the constant `RootListing`.
- Compositor.Filesystem.Read: the stream is never repositioned. `ReadWindow` proves the returned bytes are the virtual file's window only when the stream is at the read's position; a non-sequential read in the source serves bytes from wherever the stream is.
- Albums.Album.GetYear: ties between equally common years may be resolved to any of them. The source picks one according to dictionary order.
- Playlist `get_tracks` with `get_size` and `get_track_stream` (lines 79-91, 101-103) are not part of this model beyond returning the tracks.

## Findings

| source | as written | input that shows it | evidently intended | confidence | as-written member | corrected member |
|---|---|---|---|---|---|---|
| gmusicfs/gmusicfs.py:426-430 | `int(key)` parses the key's name (`'year'`), never its value, so `int_key == 0` never holds | a track whose `year` is 0 and whose album info has a year | a year of 0 is taken from the album info | medium, not executed | Catalog.SetKeyFromInfoAsWritten, Catalog.ZeroYearKeptAsWritten | Catalog.SetKeyFromInfo, Catalog.ZeroYearFilled |
| gmusicfs/gmusicfs.py:156 | the file-name pattern `^[0-9]{2}_(.*)\.mp3$` accepts exactly two digits, while the listing writes `%02d`, at least two | track number 100, listed as `100_<title>.mp3`, is not found by `get_track` | every listed track file name resolves to its track | high, not executed | Paths.ParseTrackFileNameAsWritten, Paths.TrackFileNameLostAsWritten | Paths.ParseTrackFileName, Paths.TrackFileNameRoundTrip |
| gmusicfs/gmusicfs.py:629-631 | artists are filed under the album artist as spelled (line 592), but `get_artist` looks up the lower-cased name | an artist filed as `ABBA` is not found at `/artists/ABBA` | a listed artist is found by its own name | high, not executed | Library.LookupLower, Library.MixedCaseArtistUnreachable | Library.GetArtistFrom, Library.FiledArtistFound |
