/**
 * The FUSE side of gmusicfs: how `read` assembles a virtual MP3 file out of
 * an ID3v2 header, the audio stream and an ID3v1 trailer; how `open` prepares
 * a handle and `release` forgets it; and the names `readdir` lists.
 *
 * A track of `tagSize` bytes is presented as
 *
 *     [ ID3v2 header | audio stream, padded with zeros | ID3v1 trailer ]
 *     0              |v2|                        tagSize - 128     tagSize
 *
 * The trailer and the header are rendered from the handle's tag; only the
 * middle zone is fetched from the stream.
 */
module Compositor {
  import opened Wrappers
  import opened Names
  import opened Paths
  import opened Tags
  import opened Albums
  import opened Playlists
  import opened Library
  import opened Maps

  function Min(a: int, b: int): int { if a <= b then a else b }
  function Max(a: int, b: int): int { if a <= b then b else a }

  /** Python's `s[a:b]` for non-negative bounds: both ends are clipped to
      the sequence, and a range that runs backwards is empty. */
  function Slice<T>(s: seq<T>, a: nat, b: nat): (r: seq<T>)
    ensures |r| == (if a <= b && a <= |s| then Min(b, |s|) - a else 0)
    ensures forall i :: 0 <= i < |r| ==> r[i] == s[a + i]
  {
    if a <= b && a <= |s| then s[a..Min(b, |s|)] else []
  }

  // ---------------------------------------------------------------------
  // The stream

  /** What the filesystem knows of an open stream: what it serves, how far
      it has been read, and the `bytes_read` counter the filesystem keeps
      on it. */
  datatype Cursor = Cursor(content: seq<byte>, pos: nat, bytesRead: int)

  /** `u.read(n)`: the next `n` bytes, fewer only at the end of the stream;
      a negative count reads everything that is left. */
  function Take(c: Cursor, n: int): (r: seq<byte>)
    ensures n >= 0 ==> |r| <= n
    ensures n >= 0 && c.pos + n <= |c.content| ==> |r| == n
    ensures n < 0 && c.pos <= |c.content| ==> c.pos + |r| == |c.content|
    ensures forall i :: 0 <= i < |r| ==> c.pos + i < |c.content| && r[i] == c.content[c.pos + i]
  {
    if n < 0 then Slice(c.content, c.pos, |c.content|) else Slice(c.content, c.pos, c.pos + n)
  }

  // ---------------------------------------------------------------------
  // The three zones of `read`

  /** The part of the request `read` answers from the ID3v2 header. */
  function HeadPart(v2: seq<byte>, offset: nat, size: nat): (r: seq<byte>)
    ensures |r| <= size
    ensures offset + size <= |v2| ==> r == v2[offset..offset + size]
  {
    if offset < |v2| then Slice(v2, offset, offset + size) else []
  }

  /** Where the request goes on once the header is served. */
  function RestOffset(v2len: nat, offset: nat): (o: nat)
    ensures o == Max(offset, v2len)
  {
    if offset < v2len then v2len else offset
  }

  /** How much of the request is left once the header is served. */
  function RestSize(v2: seq<byte>, offset: nat, size: nat): (s: int)
    ensures RestOffset(|v2|, offset) + s == offset + size || s == 0
    ensures s >= 0
  {
    size - |HeadPart(v2, offset, size)|
  }

  /** How many bytes `read` asks the stream for, if it asks at all: a
      request that starts in the trailer, or that the header covers, does
      not touch the stream; otherwise the stream is asked for the part of
      the request between the end of the header and the start of the
      trailer. */
  function Request(v2: seq<byte>, start: int, offset: nat, size: nat): (r: Option<int>)
    ensures r.Some? <==> offset < start && size > 0 && offset + size > |v2|
    ensures r.Some? ==> r.value == Min(offset + size, start) - Max(offset, |v2|)
  {
    if offset >= start then None
    else
      var o := RestOffset(|v2|, offset);
      var s := RestSize(v2, offset, size);
      if s <= 0 then None
      else if o + s > start then Some(start - o)
      else Some(s)
  }

  /** The bytes `read(size, offset)` returns, given the trailer `v1`, the
      header `v2`, the trailer's start and `got`, what the stream answered:
      the header part, then what the stream sent padded with zeros up to
      what was asked, then the head of the trailer if the request reaches
      it. A request that starts in the trailer is answered from it alone. */
  function Compose(v1: seq<byte>, v2: seq<byte>, start: int, offset: nat, size: nat, got: seq<byte>): (r: seq<byte>)
    ensures offset >= start ==> |r| <= size
    ensures offset < start && offset + size <= |v2| ==> r == v2[offset..offset + size]
  {
    if offset >= start then Slice(v1, offset - start, offset - start + size)
    else match Request(v2, start, offset, size)
      case None => HeadPart(v2, offset, size)
      case Some(n) =>
        var o := RestOffset(|v2|, offset);
        var s := RestSize(v2, offset, size);
        HeadPart(v2, offset, size) + got + ZeroBytes(n - |got|)
          + (if o + s > start then Slice(v1, 0, s - (start - o)) else [])
  }

  /** One whole `read`: the bytes returned and the stream afterwards. The
      stream is asked for `n` bytes and `bytes_read` grows by `n`. */
  function ReadOut(v1: seq<byte>, v2: seq<byte>, start: int, offset: nat, size: nat, c: Cursor): (r: (seq<byte>, Cursor))
    ensures r.1.content == c.content && c.pos <= r.1.pos
    ensures offset < start && size > 0 && offset + size > |v2|
            ==> r.1.bytesRead == c.bytesRead + Min(offset + size, start) - Max(offset, |v2|)
    ensures !(offset < start && size > 0 && offset + size > |v2|) ==> r.1 == c
  {
    match Request(v2, start, offset, size)
    case None => (Compose(v1, v2, start, offset, size, []), c)
    case Some(n) =>
      var got := Take(c, n);
      (Compose(v1, v2, start, offset, size, got), Cursor(c.content, c.pos + |got|, c.bytesRead + n))
  }

  /** A request that asks the stream for `n` bytes gets what `u.read(n)`
      answers, and leaves the stream that much further on. */
  lemma ReadOutStream(v1: seq<byte>, v2: seq<byte>, start: int, offset: nat, size: nat, c: Cursor, n: int)
    requires Request(v2, start, offset, size) == Some(n)
    ensures ReadOut(v1, v2, start, offset, size, c)
            == (Compose(v1, v2, start, offset, size, Take(c, n)), Cursor(c.content, c.pos + |Take(c, n)|, c.bytesRead + n))
  {
  }

  /** A request that starts in the trailer is answered from the trailer and
      leaves the stream as it was. */
  lemma TrailerOnly(v1: seq<byte>, v2: seq<byte>, start: int, offset: nat, size: nat, c: Cursor)
    requires offset >= start
    ensures ReadOut(v1, v2, start, offset, size, c) == (Slice(v1, offset - start, offset - start + size), c)
  {
  }

  /** A request inside the header is answered from the header and leaves
      the stream as it was. */
  lemma HeaderOnly(v1: seq<byte>, v2: seq<byte>, start: int, offset: nat, size: nat, c: Cursor)
    requires offset < start && offset + size <= |v2|
    ensures ReadOut(v1, v2, start, offset, size, c) == (v2[offset..offset + size], c)
  {
  }

  /** When the header fits before the trailer and the trailer is 128 bytes,
      every request that ends inside the file is answered in full, whatever
      the stream sends (the zero padding makes up for a short stream). */
  lemma ExactSize(v1: seq<byte>, v2: seq<byte>, start: int, offset: nat, size: nat, c: Cursor)
    requires |v1| == 128 && |v2| <= start
    requires offset + size <= start + 128
    ensures |ReadOut(v1, v2, start, offset, size, c).0| == size
  {
    if offset < start {
      match Request(v2, start, offset, size)
      case None =>
      case Some(n) =>
        var got := Take(c, n);
        assert n >= 0;
        var o := RestOffset(|v2|, offset);
        var s := RestSize(v2, offset, size);
        assert |HeadPart(v2, offset, size)| == o - offset;
        assert |ZeroBytes(n - |got|)| == n - |got|;
    }
  }

  /** The audio stream fitted into the `n` bytes between header and trailer:
      cut off after `n` bytes, or padded with zeros up to `n`. */
  function Fit(content: seq<byte>, n: nat): (f: seq<byte>)
    ensures |f| == n
    ensures forall i :: 0 <= i < n ==> f[i] == if i < |content| then content[i] else 0
  {
    Slice(content, 0, n) + ZeroBytes(n - |content|)
  }

  /** The file a track is presented as: header, fitted stream, trailer. */
  function VirtualFile(v1: seq<byte>, v2: seq<byte>, start: int, content: seq<byte>): (f: seq<byte>)
    requires |v2| <= start
    ensures |f| == start + |v1|
  {
    v2 + Fit(content, start - |v2|) + v1
  }

  /** Reading a slice that straddles `m` is reading up to `m`, then on. */
  lemma SliceSplit<T>(s: seq<T>, a: nat, m: nat, b: nat)
    requires a <= m <= b && m <= |s|
    ensures Slice(s, a, b) == Slice(s, a, m) + Slice(s, m, b)
  {
    var e := Min(b, |s|);
    assert Slice(s, a, b) == s[a..e];
    assert Slice(s, m, b) == s[m..e];
    assert s[a..e] == s[a..m] + s[m..e];
  }

  /** The header part of the virtual file's window. */
  lemma HeadWindow(v1: seq<byte>, v2: seq<byte>, start: int, content: seq<byte>, offset: nat, size: nat)
    requires |v2| <= start && offset < start && offset + size > |v2|
    ensures Slice(VirtualFile(v1, v2, start, content), offset, Max(offset, |v2|)) == HeadPart(v2, offset, size)
  {
    var f := VirtualFile(v1, v2, start, content);
    var a := Slice(f, offset, Max(offset, |v2|));
    var h := HeadPart(v2, offset, size);
    assert |a| == |h|;
    forall i | 0 <= i < |a| ensures a[i] == h[i] {
      assert a[i] == f[offset + i];
    }
  }

  /** The stream part of the virtual file's window, when the stream is
      positioned at the first byte the request needs from it. */
  lemma BodyWindow(v1: seq<byte>, v2: seq<byte>, start: int, c: Cursor, offset: nat, size: nat)
    requires |v2| <= start && offset < start && offset + size > |v2|
    requires c.pos == Max(offset, |v2|) - |v2|
    ensures var n := Min(offset + size, start) - Max(offset, |v2|);
            var got := Take(c, n);
            Slice(VirtualFile(v1, v2, start, c.content), Max(offset, |v2|), Min(offset + size, start))
              == got + ZeroBytes(n - |got|)
  {
    var f := VirtualFile(v1, v2, start, c.content);
    var o := Max(offset, |v2|);
    var m := Min(offset + size, start);
    var n := m - o;
    var got := Take(c, n);
    var a := Slice(f, o, m);
    var b := got + ZeroBytes(n - |got|);
    assert |a| == n == |b|;
    forall i | 0 <= i < n ensures a[i] == b[i] {
      assert a[i] == f[o + i];
      var fit := Fit(c.content, start - |v2|);
      assert f[o + i] == fit[c.pos + i];
      if i < |got| {
        assert b[i] == got[i] == c.content[c.pos + i];
      } else {
        assert b[i] == 0;
        assert c.pos + i >= |c.content|;
      }
    }
  }

  /** The trailer part of the virtual file's window. */
  lemma TailWindow(v1: seq<byte>, v2: seq<byte>, start: int, content: seq<byte>, offset: nat, size: nat)
    requires |v2| <= start && |v1| == 128 && offset < start && offset + size > start
    ensures Slice(VirtualFile(v1, v2, start, content), start, offset + size) == Slice(v1, 0, offset + size - start)
  {
    var f := VirtualFile(v1, v2, start, content);
    var a := Slice(f, start, offset + size);
    var t := Slice(v1, 0, offset + size - start);
    assert |a| == |t|;
    forall i | 0 <= i < |a| ensures a[i] == t[i] {
      assert a[i] == f[start + i];
    }
  }

  /** The window of a request that starts in the trailer. */
  lemma TrailerWindow(v1: seq<byte>, v2: seq<byte>, start: int, offset: nat, size: nat, content: seq<byte>)
    requires |v2| <= start && offset >= start
    ensures Slice(VirtualFile(v1, v2, start, content), offset, offset + size)
            == Slice(v1, offset - start, offset - start + size)
  {
    var f := VirtualFile(v1, v2, start, content);
    var w := Slice(f, offset, offset + size);
    var t := Slice(v1, offset - start, offset - start + size);
    assert |w| == |t|;
    forall i | 0 <= i < |w| ensures w[i] == t[i] {
      assert w[i] == f[offset + i];
    }
  }

  /** The window of a request the header answers alone. */
  lemma HeaderWindow(v1: seq<byte>, v2: seq<byte>, start: int, offset: nat, size: nat, content: seq<byte>)
    requires |v2| <= start && offset < start && (size == 0 || offset + size <= |v2|)
    ensures Slice(VirtualFile(v1, v2, start, content), offset, offset + size) == HeadPart(v2, offset, size)
  {
    var f := VirtualFile(v1, v2, start, content);
    var w := Slice(f, offset, offset + size);
    var h := HeadPart(v2, offset, size);
    assert |w| == |h|;
    forall i | 0 <= i < |w| ensures w[i] == h[i] {
      assert w[i] == f[offset + i];
    }
  }

  /** A request that reaches the stream is answered with the header part,
      what the stream sent padded to what was asked, and the head of the
      trailer when the request runs into it. */
  lemma ComposeShape(v1: seq<byte>, v2: seq<byte>, start: int, offset: nat, size: nat, got: seq<byte>)
    requires offset < start && size > 0 && offset + size > |v2|
    ensures var n := Min(offset + size, start) - Max(offset, |v2|);
            Compose(v1, v2, start, offset, size, got)
              == HeadPart(v2, offset, size) + (got + ZeroBytes(n - |got|))
                 + (if offset + size > start then Slice(v1, 0, offset + size - start) else [])
  {
    var n := Min(offset + size, start) - Max(offset, |v2|);
    assert Request(v2, start, offset, size) == Some(n);
    var o := RestOffset(|v2|, offset);
    var s := RestSize(v2, offset, size);
    assert s > 0;
    assert o + s == offset + size;
    var h := HeadPart(v2, offset, size);
    var z := ZeroBytes(n - |got|);
    assert h + got + z == h + (got + z);
  }

  /** The same, for the stream as a cursor. */
  lemma StreamReadShape(v1: seq<byte>, v2: seq<byte>, start: int, offset: nat, size: nat, c: Cursor)
    requires offset < start && size > 0 && offset + size > |v2|
    ensures var n := Min(offset + size, start) - Max(offset, |v2|);
            var got := Take(c, n);
            ReadOut(v1, v2, start, offset, size, c).0
              == HeadPart(v2, offset, size) + (got + ZeroBytes(n - |got|))
                 + (if offset + size > start then Slice(v1, 0, offset + size - start) else [])
  {
    var n := Min(offset + size, start) - Max(offset, |v2|);
    assert Request(v2, start, offset, size) == Some(n);
    ComposeShape(v1, v2, start, offset, size, Take(c, n));
  }

  /** The window of a request that reaches the stream. */
  lemma StreamWindow(v1: seq<byte>, v2: seq<byte>, start: int, offset: nat, size: nat, c: Cursor)
    requires |v1| == 128 && |v2| <= start && offset < start && size > 0 && offset + size > |v2|
    requires c.pos == Max(offset, |v2|) - |v2|
    ensures ReadOut(v1, v2, start, offset, size, c).0
            == Slice(VirtualFile(v1, v2, start, c.content), offset, offset + size)
  {
    var f := VirtualFile(v1, v2, start, c.content);
    var o := Max(offset, |v2|);
    var m := Min(offset + size, start);
    var n := m - o;
    var got := Take(c, n);
    var head := HeadPart(v2, offset, size);
    var body := got + ZeroBytes(n - |got|);
    HeadWindow(v1, v2, start, c.content, offset, size);
    BodyWindow(v1, v2, start, c, offset, size);
    var r := ReadOut(v1, v2, start, offset, size, c).0;
    StreamReadShape(v1, v2, start, offset, size, c);
    SliceSplit(f, offset, o, m);
    assert Slice(f, offset, m) == head + body;
    if offset + size > start {
      var tail := Slice(v1, 0, offset + size - start);
      TailWindow(v1, v2, start, c.content, offset, size);
      SliceSplit(f, offset, m, offset + size);
      assert r == head + body + tail;
      assert Slice(f, offset, offset + size) == head + body + tail;
    }
  }

  /** Every `read` returns exactly the bytes of the virtual file at
      `[offset, offset + size)` (clipped to its end), as long as the stream
      is positioned where the request needs it: the stream is read in
      order, and `offset` is not used to seek it. */
  lemma ReadWindow(v1: seq<byte>, v2: seq<byte>, start: int, offset: nat, size: nat, c: Cursor)
    requires |v1| == 128 && |v2| <= start
    requires Request(v2, start, offset, size).Some? ==> c.pos == Max(offset, |v2|) - |v2|
    ensures ReadOut(v1, v2, start, offset, size, c).0
            == Slice(VirtualFile(v1, v2, start, c.content), offset, offset + size)
  {
    if offset >= start {
      TrailerWindow(v1, v2, start, offset, size, c.content);
    } else if Request(v2, start, offset, size).None? {
      HeaderWindow(v1, v2, start, offset, size, c.content);
    } else {
      StreamWindow(v1, v2, start, offset, size, c);
    }
  }

  /** A read that the stream answers in full leaves the stream positioned
      for the read that continues where this one ended. */
  lemma ReadKeepsPlace(v1: seq<byte>, v2: seq<byte>, start: int, offset: nat, size: nat, c: Cursor)
    requires |v2| <= start && offset < start && size > 0 && offset + size > |v2| && offset + size <= start
    requires c.pos == Max(offset, |v2|) - |v2|
    requires c.pos + (offset + size - Max(offset, |v2|)) <= |c.content|
    ensures ReadOut(v1, v2, start, offset, size, c).1.pos == Max(offset + size, |v2|) - |v2|
  {
  }

  // ---------------------------------------------------------------------
  // Listing names

  /** What `readdir('/')` lists. */
  const RootListing: seq<string> := [".", "..", "artists", "playlists"]

  /** The year `get_year` gives an album with these tracks: 0 when none has
      a year, otherwise a year at least as frequent as any other. */
  ghost predicate AlbumYear(s: seq<TrackInfo>, y: int)
  {
    (y == 0 <==> forall i :: 0 <= i < |s| ==> s[i].year == 0)
    && (y != 0 ==> CountYear(s, y) >= 1)
    && (forall z :: z != 0 ==> CountYear(s, z) <= CountYear(s, y))
  }

  /** An artist listing after `|years|` albums: `.`, `..`, then album
      `ks[j]`, with year `years[j]`, listed as `lines[j + 2]`. */
  ghost predicate ArtistLines(infos: map<string, seq<TrackInfo>>, titles: map<string, string>,
                              ks: seq<string>, years: seq<int>, lines: seq<string>)
  {
    |years| <= |ks| && |lines| == |years| + 2 && lines[0] == "." && lines[1] == ".."
    && forall j :: 0 <= j < |years| ==>
         ks[j] in infos && ks[j] in titles
         && AlbumYear(infos[ks[j]], years[j]) && lines[j + 2] == AlbumDirName(years[j], titles[ks[j]])
  }

  lemma ArtistLinesStep(infos: map<string, seq<TrackInfo>>, titles: map<string, string>,
                        ks: seq<string>, years: seq<int>, lines: seq<string>, year: int, line: string)
    requires ArtistLines(infos, titles, ks, years, lines) && |years| < |ks|
    requires ks[|years|] in infos && ks[|years|] in titles
    requires AlbumYear(infos[ks[|years|]], year) && line == AlbumDirName(year, titles[ks[|years|]])
    ensures ArtistLines(infos, titles, ks, years + [year], lines + [line])
  {
    var ys, ls := years + [year], lines + [line];
    forall j | 0 <= j < |ys|
      ensures ks[j] in infos && ks[j] in titles
              && AlbumYear(infos[ks[j]], ys[j]) && ls[j + 2] == AlbumDirName(ys[j], titles[ks[j]])
    {
      if j < |years| {
        assert ys[j] == years[j] && ls[j + 2] == lines[j + 2];
      }
    }
  }

  lemma ArtistLineAt(infos: map<string, seq<TrackInfo>>, titles: map<string, string>,
                     ks: seq<string>, years: seq<int>, lines: seq<string>, j: nat)
    requires ArtistLines(infos, titles, ks, years, lines) && j < |years|
    ensures ks[j] in infos && ks[j] in titles
    ensures AlbumYear(infos[ks[j]], years[j]) && lines[j + 2] == AlbumDirName(years[j], titles[ks[j]])
  {
  }

  /** A name listed in an album directory finds, through `get_track`, the
      first track with the same formatted title: the listed track itself,
      or one before it with the same title. */
  lemma ListedTrackFound(s: seq<TrackInfo>, i: nat)
    requires i < |s| && s[i].trackNumber.Some? && s[i].trackNumber.value >= 0
    requires '\n' !in FormatNames(s[i].title)
    ensures ParseTrackFileName(TrackFileName(s[i].trackNumber.value, s[i].title)).Some?
    ensures var k := IndexOfTitle(s, ParseTrackFileName(TrackFileName(s[i].trackNumber.value, s[i].title)).value);
            k <= i && FormatNames(s[k].title) == FormatNames(s[i].title)
  {
    TrackFileNameRoundTrip(s[i].trackNumber.value, s[i].title);
  }

  /** Which album and track an open file handle reads. */
  datatype Handle = Handle(album: Album, track: Track)

  /** An HTTP response for a track's stream. */
  class Stream {
    const content: seq<byte>
    var pos: nat
    var bytesRead: int
    var closed: bool

    /** `urllib2.urlopen(url)`, with `bytes_read` set to 0 by `_open`. */
    constructor(content: seq<byte>)
      ensures this.content == content && pos == 0 && bytesRead == 0 && !closed
    {
      this.content := content;
      pos := 0;
      bytesRead := 0;
      closed := false;
    }

    function State(): Cursor
      reads this
    {
      Cursor(content, pos, bytesRead)
    }

    /** `u.read(n)`. */
    method Read(n: int) returns (data: seq<byte>)
      modifies this
      ensures data == Take(old(State()), n)
      ensures pos == old(pos) + |data| && bytesRead == old(bytesRead) && closed == old(closed)
    {
      if n < 0 {
        data := Slice(content, pos, |content|);
      } else {
        data := Slice(content, pos, pos + n);
      }
      pos := pos + |data|;
    }

    /** `u.close()`. */
    method Close()
      modifies this
      ensures closed && pos == old(pos) && bytesRead == old(bytesRead)
    {
      closed := true;
    }
  }

  /** The mounted filesystem: the open streams, the album and track behind
      each file handle, and the tag rendered for it. */
  class Filesystem {
    var openFiles: map<int, Stream>
    var urls: map<int, Handle>
    var tags: map<int, Tag>
    const render: Renderer
    const lowercase: bool
    const library: MusicLibrary

    constructor(render: Renderer, lowercase: bool, library: MusicLibrary)
      ensures openFiles == map[] && urls == map[] && tags == map[]
      ensures this.render == render && this.lowercase == lowercase && this.library == library
    {
      openFiles := map[];
      urls := map[];
      tags := map[];
      this.render := render;
      this.lowercase := lowercase;
      this.library := library;
    }

    /** The ID3v1 trailer `read` uses for a handle: the rendering of its
        tag, or 128 zero bytes when it has none. */
    function Trailer(fh: int): seq<byte>
      reads this
    {
      if fh in tags then render.v1(tags[fh]) else ZeroBytes(128)
    }

    /** The ID3v2 header `read` uses for a handle: the rendering of its
        tag, or nothing when it has none. */
    function Header(fh: int): seq<byte>
      reads this
    {
      if fh in tags then render.v2(tags[fh]) else []
    }

    /** Where the trailer of a handle's file starts: 128 bytes before the
        end of the size the track was given. */
    function TrailerStart(fh: int): int
      requires fh in urls && urls[fh].track.tagSize.Some?
      reads this, urls[fh].track
    {
      urls[fh].track.tagSize.value - 128
    }

    /** `open` once the path has led to an album and a track: the track is
        sized if it has not been, and the handle gets the album, the track
        and the tag with the real cover art. For a track sized here, the
        size it is given is its audio size plus the trailer plus exactly the
        header `read` will render. */
    method Open(fh: int, album: Album, track: Track, artStore: string -> seq<byte>)
      requires album.ArtConsistent(artStore)
      modifies this, album, track, set u | u in album.tracks
      ensures album.ArtConsistent(artStore)
      ensures album.tracks == old(album.tracks) && album.discs == old(album.discs)
      ensures urls == old(urls)[fh := Handle(album, track)]
      ensures tags == old(tags)[fh := GenTag(track.info, album.showDiscnum, RealCover(track.info, album.art))]
      ensures openFiles == old(openFiles)
      ensures track.tagSize.Some?
      ensures old(track.tagSize).None? && Faithful(render) ==>
                track.tagSize.value == track.info.estimatedSize + 128 + |render.v2(tags[fh])|
    {
      var unsized := track.tagSize.None?;
      album.CalcSize(track, render.v2, artStore);
      ghost var art1, artSize1, artUrl1 := album.art, album.artSize, album.artUrl;
      var tag := album.TagFor(track, artStore);
      if unsized {
        FakeAndRealCoverAgree(track.info, album.showDiscnum, artUrl1, artSize1, art1, album.art, artStore);
      }
      urls := urls[fh := Handle(album, track)];
      tags := tags[fh := tag];
    }

    /** `_open`: the handle's stream, with `bytes_read` at 0. */
    method OpenStream(fh: int, connect: string -> seq<byte>) returns (u: Stream)
      requires fh in urls
      modifies this
      ensures urls == old(urls) && tags == old(tags)
      ensures fresh(u) && u.content == connect(urls[fh].track.info.id) && u.State() == Cursor(u.content, 0, 0)
      ensures openFiles == old(openFiles)[fh := u]
    {
      u := new Stream(connect(urls[fh].track.info.id));
      openFiles := openFiles[fh := u];
    }

    /** `read(path, size, offset, fh)`. `None` stands for the errors the
        source raises: an unknown handle, or a track without a size. The
        stream is opened on first need; `before` is the stream as the read
        found it. */
    method Read(fh: int, size: nat, offset: nat, connect: string -> seq<byte>) returns (r: Option<seq<byte>>, ghost before: Cursor)
      modifies this, (if fh in openFiles then {openFiles[fh]} else {})
      ensures urls == old(urls) && tags == old(tags)
      ensures r.None? <==> fh !in urls || urls[fh].track.tagSize.None?
      ensures r.None? ==> openFiles == old(openFiles)
      ensures r.Some? && Request(Header(fh), TrailerStart(fh), offset, size).None? ==>
                openFiles == old(openFiles)
                && r.value == Compose(Trailer(fh), Header(fh), TrailerStart(fh), offset, size, [])
      ensures r.Some? && Request(Header(fh), TrailerStart(fh), offset, size).Some? ==>
                fh in openFiles && openFiles == old(openFiles)[fh := openFiles[fh]]
                && (fh in old(openFiles) ==> openFiles[fh] == old(openFiles[fh]) && before == old(openFiles[fh].State()))
                && (fh !in old(openFiles) ==> fresh(openFiles[fh]) && before == Cursor(connect(urls[fh].track.info.id), 0, 0))
                && r.value == ReadOut(Trailer(fh), Header(fh), TrailerStart(fh), offset, size, before).0
                && openFiles[fh].State() == ReadOut(Trailer(fh), Header(fh), TrailerStart(fh), offset, size, before).1
    {
      before := Cursor([], 0, 0);
      if fh !in urls {
        return None, before;
      }
      var track := urls[fh].track;
      if track.tagSize.None? {
        return None, before;
      }
      var v1, v2, start := Trailer(fh), Header(fh), TrailerStart(fh);
      if offset >= start {
        return Some(Slice(v1, offset - start, offset - start + size)), before;
      }
      var buf;
      buf, before := ReadBefore(fh, v1, v2, start, offset, size, connect);
      r := Some(buf);
    }

    /** The header part of `read`: the slice of the ID3v2 header the
        request covers, and the offset and size that remain after it. */
    static method HeaderStep(v1: seq<byte>, v2: seq<byte>, start: int, offset: nat, size: nat)
        returns (buf: seq<byte>, o: nat, s: int)
      requires offset < start
      ensures buf == HeadPart(v2, offset, size) && o == RestOffset(|v2|, offset) && s == RestSize(v2, offset, size)
      ensures s <= 0 <==> Request(v2, start, offset, size).None?
      ensures s <= 0 ==> buf == Compose(v1, v2, start, offset, size, [])
      ensures s > 0 ==> Request(v2, start, offset, size) == Some(if o + s > start then start - o else s)
    {
      buf := [];
      o, s := offset, size as int;
      if offset < |v2| {
        buf := Slice(v2, offset, offset + size);
        s := s - |buf|;
        o := |v2|;
      }
    }

    /** The rest of `read` once the stream has answered with `got`: the
        answer padded with zero bytes to the `n` bytes asked for, then the
        head of the trailer if the request reaches into it. */
    static method TailStep(v1: seq<byte>, v2: seq<byte>, start: int, offset: nat, size: nat,
                           head: seq<byte>, got: seq<byte>, o: nat, s: int, n: int) returns (buf: seq<byte>)
      requires offset < start && s > 0
      requires head == HeadPart(v2, offset, size) && o == RestOffset(|v2|, offset) && s == RestSize(v2, offset, size)
      requires Request(v2, start, offset, size) == Some(n) && n == (if o + s > start then start - o else s)
      ensures buf == Compose(v1, v2, start, offset, size, got)
    {
      var pad := ZeroBytes(n - |got|);
      ComposeShape(v1, v2, start, offset, size, got);
      if o + s > start {
        buf := head + (got + pad) + Slice(v1, 0, s - (start - o));
      } else {
        buf := head + (got + pad) + [];
      }
    }

    /** The part of `read` for a request that starts before the trailer:
        the header part, then, if the request goes on past the header, the
        stream part and the head of the trailer. */
    method ReadBefore(fh: int, v1: seq<byte>, v2: seq<byte>, start: int, offset: nat, size: nat,
                      connect: string -> seq<byte>) returns (buf: seq<byte>, ghost before: Cursor)
      requires fh in urls && offset < start
      modifies this, (if fh in openFiles then {openFiles[fh]} else {})
      ensures urls == old(urls) && tags == old(tags)
      ensures Request(v2, start, offset, size).None? ==>
                openFiles == old(openFiles) && buf == Compose(v1, v2, start, offset, size, [])
      ensures Request(v2, start, offset, size).Some? ==>
                fh in openFiles && openFiles == old(openFiles)[fh := openFiles[fh]]
                && (fh in old(openFiles) ==> openFiles[fh] == old(openFiles[fh]) && before == old(openFiles[fh].State()))
                && (fh !in old(openFiles) ==> fresh(openFiles[fh]) && before == Cursor(connect(urls[fh].track.info.id), 0, 0))
                && buf == ReadOut(v1, v2, start, offset, size, before).0
                && openFiles[fh].State() == ReadOut(v1, v2, start, offset, size, before).1
    {
      before := Cursor([], 0, 0);
      var o, s;
      buf, o, s := HeaderStep(v1, v2, start, offset, size);
      if s <= 0 {
        return buf, before;
      }
      var n := if o + s > start then start - o else s;
      var got;
      got, before := Fetch(fh, n, connect);
      buf := TailStep(v1, v2, start, offset, size, buf, got, o, s, n);
      ReadOutStream(v1, v2, start, offset, size, before, n);
    }

    /** The stream part of `read`: the handle's stream, opened by `_open`
        on first need, is asked for `n` bytes, and `bytes_read` grows by
        `n`. `before` is the stream as it was found. */
    method Fetch(fh: int, n: int, connect: string -> seq<byte>) returns (got: seq<byte>, ghost before: Cursor)
      requires fh in urls
      modifies this, (if fh in openFiles then {openFiles[fh]} else {})
      ensures urls == old(urls) && tags == old(tags)
      ensures fh in openFiles && openFiles == old(openFiles)[fh := openFiles[fh]]
      ensures fh in old(openFiles) ==> openFiles[fh] == old(openFiles[fh]) && before == old(openFiles[fh].State())
      ensures fh !in old(openFiles) ==> fresh(openFiles[fh]) && before == Cursor(connect(urls[fh].track.info.id), 0, 0)
      ensures got == Take(before, n)
      ensures openFiles[fh].State() == Cursor(before.content, before.pos + |got|, before.bytesRead + n)
    {
      var u: Stream;
      if fh in openFiles {
        u := openFiles[fh];
      } else {
        u := OpenStream(fh, connect);
      }
      before := u.State();
      got := u.Read(n);
      u.bytesRead := u.bytesRead + n;
    }

    /** `release`: the handle leaves all three maps and its stream, if it
        had one, is closed. Releasing a handle that is not open changes
        nothing, so a second release is harmless. */
    method Release(fh: int)
      modifies this, (if fh in openFiles then {openFiles[fh]} else {})
      ensures openFiles == old(openFiles) - {fh} && urls == old(urls) - {fh} && tags == old(tags) - {fh}
      ensures fh in old(openFiles) ==> old(openFiles[fh]).closed
      ensures fh !in old(openFiles) && fh !in old(urls) && fh !in old(tags) ==> unchanged(this)
    {
      if fh in openFiles {
        openFiles[fh].Close();
        openFiles := openFiles - {fh};
      }
      if fh in urls {
        urls := urls - {fh};
      }
      if fh in tags {
        tags := tags - {fh};
      }
    }

    /** `readdir('/playlists')`: `.`, `..` and each playlist's directory
        name, in no particular order; `order` is the order of the keys they
        were listed for. */
    method ListPlaylists() returns (names: seq<string>, ghost order: seq<string>)
      ensures |order| == |library.playlists| && |names| == |order| + 2 && names[0] == "." && names[1] == ".."
      ensures forall k :: k in library.playlists <==> k in order
      ensures forall i, j :: 0 <= i < j < |order| ==> order[i] != order[j]
      ensures forall i :: 0 <= i < |order| ==> names[i + 2] == Transform(library.playlists[order[i]].dirname, lowercase)
    {
      var playlists := library.playlists;
      var ks := KeyList(playlists);
      names := [".", ".."];
      var i := 0;
      while i < |ks|
        invariant 0 <= i <= |ks|
        invariant |names| == i + 2 && names[0] == "." && names[1] == ".."
        invariant forall j :: 0 <= j < i ==> names[j + 2] == Transform(playlists[ks[j]].dirname, lowercase)
      {
        names := names + [Transform(playlists[ks[i]].dirname, lowercase)];
        i := i + 1;
      }
      order := ks;
    }

    /** One line of an artist listing: the album's `YYYY_title` name, with
        the year `get_year` gives it. */
    static method AlbumEntry(a: Album) returns (name: string, year: int)
      ensures AlbumYear(Infos(a.tracks), year)
      ensures name == AlbumDirName(year, a.normtitle)
    {
      year := a.GetYear();
      name := AlbumDirName(year, a.normtitle);
    }

    /** `readdir('/artists/<artist>')` on the artist's album map: `.`, `..`
        and one `YYYY_title` name per album, in no particular order, with
        the year `get_year` gives the album. `order` is the order the albums
        were listed in, `years` their years. */
    method ListArtist(shelf: map<string, Album>) returns (names: seq<string>, ghost order: seq<string>, ghost years: seq<int>)
      ensures |order| == |shelf| && |years| == |order| && |names| == |order| + 2
      ensures names[0] == "." && names[1] == ".."
      ensures forall k :: k in shelf <==> k in order
      ensures forall i, j :: 0 <= i < j < |order| ==> order[i] != order[j]
      ensures forall i :: 0 <= i < |order| ==>
                (AlbumYear(Infos(shelf[order[i]].tracks), years[i])
                 && names[i + 2] == AlbumDirName(years[i], shelf[order[i]].normtitle))
    {
      ghost var infos := map k | k in shelf :: Infos(shelf[k].tracks);
      ghost var titles := map k | k in shelf :: shelf[k].normtitle;
      var ks := KeyList(shelf);
      names := [".", ".."];
      years := [];
      var i := 0;
      while i < |ks|
        invariant 0 <= i <= |ks| && |years| == i
        invariant ArtistLines(infos, titles, ks, years, names)
      {
        var name, year := AlbumEntry(shelf[ks[i]]);
        ArtistLinesStep(infos, titles, ks, years, names, year, name);
        names := names + [name];
        years := years + [year];
        i := i + 1;
      }
      order := ks;
      forall j | 0 <= j < |order|
        ensures AlbumYear(Infos(shelf[order[j]].tracks), years[j])
                && names[j + 2] == AlbumDirName(years[j], shelf[order[j]].normtitle)
      {
        ArtistLineAt(infos, titles, ks, years, names, j);
        assert titles[ks[j]] == shelf[ks[j]].normtitle && infos[ks[j]] == Infos(shelf[ks[j]].tracks);
      }
    }

    /** `readdir('/artists/<artist>/<year>_<album>')`: every track is sized,
        then listed as `NN_title.mp3`, in the album's order. The source
        fails on a track without a number; the model returns `None` then. */
    method ListAlbum(album: Album, artStore: string -> seq<byte>) returns (r: Option<seq<string>>)
      requires album.ArtConsistent(artStore)
      modifies album, set u | u in album.tracks
      ensures album.ArtConsistent(artStore)
      ensures album.tracks == old(album.tracks) && album.discs == old(album.discs)
      ensures r.Some? <==> forall i :: 0 <= i < |album.tracks| ==> album.tracks[i].info.trackNumber.Some?
      ensures r.Some? ==> |r.value| == |album.tracks| + 2 && r.value[0] == "." && r.value[1] == ".."
      ensures r.Some? ==> forall i :: 0 <= i < |album.tracks| ==>
                r.value[i + 2] == TrackFileName(album.tracks[i].info.trackNumber.value, album.tracks[i].info.title)
                && album.tracks[i].tagSize.Some?
    {
      var files := [".", ".."];
      var ts := album.GetTracks();
      var i := 0;
      while i < |ts|
        invariant 0 <= i <= |ts|
        invariant album.ArtConsistent(artStore)
        invariant album.tracks == ts == old(album.tracks) && album.discs == old(album.discs)
        invariant |files| == i + 2 && files[0] == "." && files[1] == ".."
        invariant forall j :: 0 <= j < i ==>
                    (ts[j].info.trackNumber.Some?
                     && files[j + 2] == TrackFileName(ts[j].info.trackNumber.value, ts[j].info.title)
                     && ts[j].tagSize.Some?)
      {
        album.CalcSize(ts[i], render.v2, artStore);
        if ts[i].info.trackNumber.None? {
          return None;
        }
        files := files + [TrackFileName(ts[i].info.trackNumber.value, ts[i].info.title)];
        i := i + 1;
      }
      r := Some(files);
    }
  }
}
