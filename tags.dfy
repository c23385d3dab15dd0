/**
 * A track's catalog record, as the library build leaves it, and the ID3 tag
 * `Album.gen_tag` builds for it. Turning a tag into bytes (eyed3 saving it
 * to a temporary file) is not modelled: a renderer is a parameter, and the
 * facts the filesystem relies on about it are stated as predicates.
 */
module Tags {
  import opened Wrappers
  import opened Names

  newtype byte = x: int | 0 <= x < 256

  /** A track record after the library build: the fields the albums, the
      tags and the listings read. `artUrl` is `albumArtRef[0]['url']`. */
  datatype TrackInfo = TrackInfo(
    id: string,
    title: string,
    artists: seq<string>,
    album: string,
    albumArtist: string,
    year: int,
    discNumber: Option<int>,
    trackNumber: Option<int>,
    genre: Option<string>,
    estimatedSize: int,
    artUrl: Option<string>)

  /** The frames of a tag that `gen_tag` may set. */
  datatype Tag = Tag(
    album: string,
    artist: string,
    title: string,
    discNum: Option<int>,
    trackNum: Option<int>,
    genre: Option<string>,
    albumArtistFrame: Option<string>,
    recordingDate: Option<int>,
    frontCover: Option<seq<byte>>)

  /** `" / ".join(parts)`. */
  function JoinArtists(parts: seq<string>): string
  {
    if parts == [] then ""
    else if |parts| == 1 then parts[0]
    else parts[0] + " / " + JoinArtists(parts[1..])
  }

  /** The `TPE2` (album artist) frame is written only when it says more than
      the track artist does. */
  predicate NeedsAlbumArtistFrame(t: TrackInfo)
  {
    |t.artists| != 1 || t.albumArtist != t.artists[0]
  }

  /** `Album.gen_tag`, once the image to embed (if any) has been chosen:
      `cover` is the fake or downloaded album art, and it is embedded only
      for a track that carries an art reference. */
  function GenTag(t: TrackInfo, showDiscnum: bool, cover: Option<seq<byte>>): (tag: Tag)
    ensures tag.album == t.album && tag.title == t.title
    ensures tag.artist == JoinArtists(t.artists)
    ensures tag.discNum.Some? <==> showDiscnum && t.discNumber.Some?
    ensures tag.trackNum == t.trackNumber && tag.genre == t.genre
    ensures tag.albumArtistFrame.Some? <==> NeedsAlbumArtistFrame(t)
    ensures tag.recordingDate.Some? <==> t.year != 0
    ensures tag.frontCover.Some? <==> t.artUrl.Some? && cover.Some?
  {
    Tag(
      t.album,
      JoinArtists(t.artists),
      t.title,
      if showDiscnum then t.discNumber else None,
      t.trackNumber,
      t.genre,
      if NeedsAlbumArtistFrame(t) then Some(t.albumArtist) else None,
      if t.year != 0 then Some(t.year) else None,
      if t.artUrl.Some? then cover else None)
  }

  /** Two tags that differ at most in the bytes of their image, not in its
      length. */
  predicate SameShape(a: Tag, b: Tag)
  {
    a.(frontCover := None) == b.(frontCover := None)
    && (a.frontCover.Some? <==> b.frontCover.Some?)
    && (a.frontCover.Some? ==> |a.frontCover.value| == |b.frontCover.value|)
  }

  /** Tags generated for the same track with images of equal length have the
      same shape: the image is the only frame the choice of art affects. */
  lemma GenTagSameShape(t: TrackInfo, showDiscnum: bool, c1: Option<seq<byte>>, c2: Option<seq<byte>>)
    requires c1.Some? <==> c2.Some?
    requires c1.Some? ==> |c1.value| == |c2.value|
    ensures SameShape(GenTag(t, showDiscnum, c1), GenTag(t, showDiscnum, c2))
  {
  }

  /** `'\0' * n`: `n` zero bytes, none when `n` is negative. */
  function ZeroBytes(n: int): (z: seq<byte>)
    ensures |z| == (if n > 0 then n else 0)
    ensures forall i :: 0 <= i < |z| ==> z[i] == 0
  {
    seq(if n > 0 then n else 0, _ => 0)
  }

  /** The two renderings `Album.render_tag` produces: ID3v1.1 for the
      trailer and ID3v2.4 for the header. */
  datatype Renderer = Renderer(v1: Tag -> seq<byte>, v2: Tag -> seq<byte>)

  /** What the filesystem relies on about eyed3: an ID3v1 tag is always 128
      bytes, and the length of an ID3v2 tag depends on its image only through
      the image's length. */
  ghost predicate Faithful(r: Renderer)
  {
    (forall tag :: |r.v1(tag)| == 128)
    && (forall a, b :: SameShape(a, b) ==> |r.v2(a)| == |r.v2(b)|)
  }
}
