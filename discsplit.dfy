/**
 * The second half of the library build: every album of an artist that
 * spans more than one disc is replaced by one album per disc, named
 * `"<album> - Disc <d>"`, holding that disc's tracks in their original
 * order.
 */
module DiscSplit {
  import opened Wrappers
  import opened Names
  import opened Numbers
  import opened Tags
  import opened Albums
  import Catalog
  import opened Maps

  /** The tracks of `s` on disc `d`, in order. */
  function FilterDisc(s: seq<TrackInfo>, d: int): (r: seq<TrackInfo>)
    ensures |r| <= |s|
    ensures forall i :: 0 <= i < |r| ==> r[i].discNumber == Some(d) && r[i] in s
  {
    if s == [] then []
    else FilterDisc(s[..|s| - 1], d) + (if s[|s| - 1].discNumber == Some(d) then [s[|s| - 1]] else [])
  }

  /** Filtering a sequence with one more element at the end. */
  lemma FilterDiscAppend(s: seq<TrackInfo>, x: TrackInfo, d: int)
    ensures FilterDisc(s + [x], d) == FilterDisc(s, d) + (if x.discNumber == Some(d) then [x] else [])
  {
    assert (s + [x])[..|s|] == s;
  }

  /** No track of `s` is on disc `d`: the filter is empty. */
  lemma {:induction false} FilterDiscNone(s: seq<TrackInfo>, d: int)
    requires d !in DiscSet(s)
    ensures FilterDisc(s, d) == []
  {
    if s != [] {
      var p := s[..|s| - 1];
      assert d !in DiscSet(p) by {
        forall i | 0 <= i < |p| ensures p[i].discNumber != Some(d) {
          assert p[i] == s[i];
          if s[i].discNumber.Some? {
            assert s[i].discNumber.value in DiscSet(s);
          }
        }
      }
      FilterDiscNone(p, d);
    }
  }

  /** The album made of one disc's tracks lists exactly that disc. */
  lemma {:induction false} FilterDiscOneDisc(s: seq<TrackInfo>, d: int)
    requires d in DiscSet(s)
    ensures DiscsOf(FilterDisc(s, d)) == [d]
  {
    var p := s[..|s| - 1];
    var x := s[|s| - 1];
    var fp := FilterDisc(p, d);
    if d in DiscSet(p) {
      FilterDiscOneDisc(p, d);
      if x.discNumber == Some(d) {
        assert FilterDisc(s, d) == fp + [x];
        assert (fp + [x])[..|fp|] == fp;
        assert DiscsOf(fp + [x]) == DiscsOf(fp);
      } else {
        assert FilterDisc(s, d) == fp;
      }
    } else {
      FilterDiscNone(p, d);
      assert x.discNumber == Some(d) by {
        forall k | 0 <= k < |p| ensures s[k].discNumber != Some(d) {
          assert s[k] == p[k];
          if p[k].discNumber.Some? {
            assert p[k].discNumber.value in DiscSet(p);
          }
        }
        var i :| 0 <= i < |s| && s[i].discNumber == Some(d);
      }
      assert FilterDisc(s, d) == [x];
      assert [x][..0] == [];
    }
  }

  /** The sizes of the per-disc albums for the discs `ds`, added up. */
  function SplitSizes(s: seq<TrackInfo>, ds: seq<int>): nat
  {
    if ds == [] then 0 else SplitSizes(s, ds[..|ds| - 1]) + |FilterDisc(s, ds[|ds| - 1])|
  }

  /** One more track adds one to the total of the disc it is on, when that
      disc is among `ds`. */
  lemma {:induction false} SplitSizesAppend(s: seq<TrackInfo>, x: TrackInfo, ds: seq<int>)
    requires x.discNumber.Some? && NoDuplicates(ds)
    ensures SplitSizes(s + [x], ds) == SplitSizes(s, ds) + (if x.discNumber.value in ds then 1 else 0)
  {
    if ds != [] {
      var q := ds[..|ds| - 1];
      var d := ds[|ds| - 1];
      assert NoDuplicates(q);
      assert d !in q;
      SplitSizesAppend(s, x, q);
      FilterDiscAppend(s, x, d);
      assert x.discNumber.value in ds <==> x.discNumber.value in q || x.discNumber.value == d by {
        assert ds == q + [d];
      }
    }
  }

  /** When every track carries a disc number, the per-disc albums together
      hold exactly as many tracks as the album they replace: no track is
      lost and none is duplicated. */
  lemma {:induction false} SplitKeepsEveryTrack(s: seq<TrackInfo>)
    requires forall i :: 0 <= i < |s| ==> s[i].discNumber.Some?
    ensures SplitSizes(s, DiscsOf(s)) == |s|
  {
    if s != [] {
      var p := s[..|s| - 1];
      var x := s[|s| - 1];
      var e := x.discNumber.value;
      assert s == p + [x];
      SplitKeepsEveryTrack(p);
      DiscsOfDistinct(p);
      DiscsOfDistinct(s);
      var dp := DiscsOf(p);
      if e in dp {
        SplitSizesAppend(p, x, dp);
      } else {
        assert DiscsOf(s) == dp + [e];
        assert (dp + [e])[..|dp|] == dp;
        SplitSizesAppend(p, x, dp);
        FilterDiscNone(p, e);
        FilterDiscAppend(p, x, e);
      }
    }
  }

  // ---------------------------------------------------------------------
  // Names of the per-disc albums

  /** `"%s - Disc %i" % (album, d)`. */
  function DiscTitle(album: string, d: int): string
  {
    album + " - Disc " + IntToString(d)
  }

  /** The key a per-disc album is filed under. */
  function DiscKey(album: string, d: int): string
  {
    FormatNames(DiscTitle(album, d))
  }

  /** The number at the end of a disc title passes through formatting
      untouched. */
  lemma DiscKeyShape(album: string, d: int)
    ensures DiscKey(album, d) == FormatNames(album + " - Disc ") + IntToString(d)
  {
    var n := IntToString(d);
    assert Inert(n) by {
      forall c | c in n ensures c !in Unsafe && c != ' ' {
        if d >= 0 {
          DigitsAreDigits(d);
          assert n == Digits(d);
        } else {
          DigitsAreDigits(-d);
          assert n == "-" + Digits(-d);
        }
      }
    }
    FormatNamesFrame("", album + " - Disc ", n);
    assert "" + (album + " - Disc ") + n == DiscTitle(album, d);
  }

  /** Different discs of an album get different keys. */
  lemma DiscKeyInjective(album: string, d1: int, d2: int)
    requires d1 != d2
    ensures DiscKey(album, d1) != DiscKey(album, d2)
  {
    var prefix := FormatNames(album + " - Disc ");
    DiscKeyShape(album, d1);
    DiscKeyShape(album, d2);
    if DiscKey(album, d1) == DiscKey(album, d2) {
      assert (prefix + IntToString(d1))[|prefix|..] == IntToString(d1);
      assert (prefix + IntToString(d2))[|prefix|..] == IntToString(d2);
      Catalog.IntOfRoundTrip(d1);
      Catalog.IntOfRoundTrip(d2);
    }
  }

  /** Every track of the album carries a disc number (`int(t['discNumber'])`
      fails otherwise). */
  predicate Numbered(a: Album)
    reads a
  {
    forall i :: 0 <= i < |a.tracks| ==> a.tracks[i].info.discNumber.Some?
  }

  /** The per-disc albums of `a`, filed under `key`: a fresh album for disc
      `d` with the title, art and tracks the split gives it. */
  ghost predicate IsDiscAlbum(na: Album, a: Album, d: int)
    reads na, a
  {
    na.Valid()
    && na.normtitle == DiscKey(a.album, d)
    && na.album == DiscTitle(a.album, d)
    && na.artist == a.artist && na.year == a.year
    && na.showDiscnum
    && na.artUrl == a.artUrl && na.artSize == a.artSize && na.art == a.art
    && Infos(na.tracks) == FilterDisc(Infos(a.tracks), d)
  }

  /** The album for disc `d` of `a`: a new album with `a`'s art, marked to
      show disc numbers, holding `a`'s tracks on disc `d` in order. */
  method DiscAlbum(a: Album, d: int) returns (na: Album)
    requires a.Valid()
    ensures fresh(na) && IsDiscAlbum(na, a, d)
    ensures d in DiscSet(Infos(a.tracks)) ==> na.GetDiscCount() == 1
  {
    var title := DiscTitle(a.album, d);
    na := new Album(FormatNames(title), a.artist, title, a.year);
    FormatNamesIdempotent(title);
    a.CopyArtTo(na);
    na.showDiscnum := true;
    var ts := a.GetTracks();
    var i := 0;
    while i < |ts|
      invariant 0 <= i <= |ts|
      invariant na.Valid() && na.showDiscnum
      invariant na.normtitle == DiscKey(a.album, d) && na.album == title
      invariant na.artUrl == a.artUrl && na.artSize == a.artSize && na.art == a.art
      invariant Infos(na.tracks) == FilterDisc(Infos(ts[..i]), d)
    {
      var t := ts[i];
      ghost var prefix := Infos(ts[..i]);
      ghost var kept := na.tracks;
      assert ts[..i + 1] == ts[..i] + [t];
      InfosAppend(ts[..i], t);
      assert Infos(ts[..i + 1]) == prefix + [t.info];
      FilterDiscAppend(prefix, t.info, d);
      if t.info.discNumber == Some(d) {
        InfosAppend(kept, t);
        na.AddTrack(t);
        assert Infos(na.tracks) == Infos(kept) + [t.info];
      }
      assert Infos(na.tracks) == FilterDisc(prefix + [t.info], d);
      i := i + 1;
    }
    assert ts[..i] == ts;
    if d in DiscSet(Infos(a.tracks)) {
      FilterDiscOneDisc(Infos(a.tracks), d);
      DiscCountDistinct(Infos(na.tracks));
    }
  }

  /** `made[i]` is the album for disc `ds[i]` of `a`, for every `i`, and
      none of them is among `prior`. */
  ghost predicate DiscAlbums(made: seq<Album>, a: Album, ds: seq<int>, prior: set<Album>)
    reads made, a
  {
    |made| <= |ds|
    && forall i :: 0 <= i < |made| ==>
         IsDiscAlbum(made[i], a, ds[i]) && |made[i].discs| == 1 && made[i] !in prior
  }

  /** The keys of the per-disc albums, in disc order. */
  function DiscKeyList(album: string, ds: seq<int>): (ks: seq<string>)
    ensures |ks| == |ds| && forall i :: 0 <= i < |ds| ==> ks[i] == DiscKey(album, ds[i])
  {
    seq(|ds|, i requires 0 <= i < |ds| => DiscKey(album, ds[i]))
  }

  /** Splitting the album `a` filed under `key` on an artist's album map:
      one new album per disc, filed under its disc key, then `key` removed.
      `made` lists the new albums in disc order. */
  method SplitAlbum(shelf: map<string, Album>, key: string, ghost prior: set<Album>)
      returns (result: map<string, Album>, ghost made: seq<Album>)
    requires key in shelf && shelf[key].Valid() && Numbered(shelf[key])
    ensures |made| == |shelf[key].discs|
    ensures result == (shelf + Zip(DiscKeyList(shelf[key].album, shelf[key].discs), made)) - {key}
    ensures DiscAlbums(made, shelf[key], shelf[key].discs, prior)
  {
    var a := shelf[key];
    var ds := a.GetDiscs();
    var keys := DiscKeyList(a.album, ds);
    var added: map<string, Album> := shelf;
    made := [];
    var j := 0;
    while j < |ds|
      invariant 0 <= j <= |ds| && |made| == j
      invariant added == shelf + Zip(keys[..j], made)
      invariant DiscAlbums(made, a, ds, prior)
    {
      var d := ds[j];
      assert d in DiscSet(Infos(a.tracks));
      var na := DiscAlbum(a, d);
      FileNext(shelf, keys, made, na);
      DiscAlbumsAppend(made, na, a, ds, prior);
      added := added[keys[j] := na];
      made := made + [na];
      j := j + 1;
    }
    assert keys[..j] == keys;
    result := added - {key};
  }

  lemma FileNext(shelf: map<string, Album>, keys: seq<string>, made: seq<Album>, na: Album)
    requires |made| < |keys|
    ensures (shelf + Zip(keys[..|made|], made))[keys[|made|] := na] == shelf + Zip(keys[..|made| + 1], made + [na])
  {
    ZipExtend(keys, made, na);
    OverrideUpdate(shelf, Zip(keys[..|made|], made), keys[|made|], na);
  }

  lemma DiscAlbumsAppend(made: seq<Album>, na: Album, a: Album, ds: seq<int>, prior: set<Album>)
    requires DiscAlbums(made, a, ds, prior) && |made| < |ds|
    requires IsDiscAlbum(na, a, ds[|made|]) && |na.discs| == 1 && na !in prior
    ensures DiscAlbums(made + [na], a, ds, prior)
  {
    assert forall i :: 0 <= i < |made| ==> (made + [na])[i] == made[i];
  }

  /** What splitting leaves on the map: the keys of the map and of the new
      albums except the split one; the other albums where they were; and
      under each disc key (unless it is the removed key) the album of that
      disc. */
  lemma SplitAlbumResult(shelf: map<string, Album>, key: string, keys: seq<string>, made: seq<Album>,
                         result: map<string, Album>)
    requires |keys| == |made| && forall i, j :: 0 <= i < j < |keys| ==> keys[i] != keys[j]
    requires result == (shelf + Zip(keys, made)) - {key}
    ensures forall k :: k in result <==> (k in shelf || k in keys) && k != key
    ensures forall k :: k in result && k !in keys ==> result[k] == shelf[k]
    ensures forall i :: 0 <= i < |keys| && keys[i] != key ==> keys[i] in result && result[keys[i]] == made[i]
  {
    ZipKeys(keys, made);
    forall i | 0 <= i < |keys| ensures keys[i] in Zip(keys, made) && Zip(keys, made)[keys[i]] == made[i] {
      ZipAt(keys, made, i);
    }
  }

  /** The disc keys of an album's disc list are distinct. */
  lemma DiscKeyListDistinct(album: string, ds: seq<int>)
    requires NoDuplicates(ds)
    ensures forall i, j :: 0 <= i < j < |ds| ==> DiscKeyList(album, ds)[i] != DiscKeyList(album, ds)[j]
  {
    forall i, j | 0 <= i < j < |ds| ensures DiscKeyList(album, ds)[i] != DiscKeyList(album, ds)[j] {
      DiscKeyInjective(album, ds[i], ds[j]);
    }
  }

  /** A per-disc album made by the split, filed under `k`: not one of the
      map's original albums, on a single disc, and the album of some disc
      `d` of a multi-disc album of the map, filed under that disc's key. */
  ghost predicate IsNewDiscAlbum(na: Album, k: string, shelf: map<string, Album>)
    reads na, shelf.Values
  {
    na !in shelf.Values && |na.discs| == 1
    && exists k0, d :: k0 in shelf && |shelf[k0].discs| > 1 && d in shelf[k0].discs
                       && k == DiscKey(shelf[k0].album, d) && IsDiscAlbum(na, shelf[k0], d)
  }

  /** No disc key of a multi-disc album is already a key of the map, and
      the disc keys of two different multi-disc albums differ. The source
      writes the per-disc albums into the map it is walking, so without
      this a disc album can overwrite an album that is still to be visited
      or one that another split made. */
  ghost predicate SplitFree(shelf: map<string, Album>)
    reads shelf.Values
  {
    (forall k0, d :: k0 in shelf && |shelf[k0].discs| > 1 && d in shelf[k0].discs ==>
       DiscKey(shelf[k0].album, d) !in shelf)
    && (forall k0, k1, d0, d1 ::
          k0 in shelf && k1 in shelf && k0 != k1 && |shelf[k0].discs| > 1 && |shelf[k1].discs| > 1
          && d0 in shelf[k0].discs && d1 in shelf[k1].discs ==>
          DiscKey(shelf[k0].album, d0) != DiscKey(shelf[k1].album, d1))
  }

  /** The album under `k0` is gone, and under the key of each of its discs
      lies the album of that disc. */
  ghost predicate Replaced(shelf: map<string, Album>, result: map<string, Album>, k0: string)
    requires k0 in shelf
    reads shelf.Values, result.Values
  {
    k0 !in result
    && forall d :: d in shelf[k0].discs ==>
         DiscKey(shelf[k0].album, d) in result && IsDiscAlbum(result[DiscKey(shelf[k0].album, d)], shelf[k0], d)
  }

  /** The state of the split after visiting every key but `remaining`. */
  ghost predicate Separated(shelf: map<string, Album>, result: map<string, Album>, remaining: set<string>)
    reads result.Values, shelf.Values
  {
    remaining <= result.Keys
    && (forall k :: k in result ==> result[k].Valid())
    && (forall k :: k in result ==> (k in shelf && result[k] == shelf[k]) || IsNewDiscAlbum(result[k], k, shelf))
    && (forall k :: k in result ==> k in remaining || |result[k].discs| <= 1)
    && (forall k :: k in shelf && |shelf[k].discs| <= 1 ==> k in result)
    && (SplitFree(shelf) ==>
          forall k0 :: k0 in shelf && k0 !in remaining && |shelf[k0].discs| > 1 ==> Replaced(shelf, result, k0))
  }

  /** A map key that is also an original key holds its original album, when
      no disc key collides with an original key. */
  lemma OriginalKept(shelf: map<string, Album>, result: map<string, Album>, remaining: set<string>, key: string)
    requires Separated(shelf, result, remaining) && SplitFree(shelf)
    requires key in result && key in shelf
    ensures result[key] == shelf[key]
  {
  }

  /** Visiting a key whose album spans at most one disc changes nothing. */
  lemma SeparatedSkip(shelf: map<string, Album>, result: map<string, Album>, remaining: set<string>, key: string)
    requires Separated(shelf, result, remaining) && key in remaining
    requires |result[key].discs| <= 1
    ensures Separated(shelf, result, remaining - {key})
  {
    if SplitFree(shelf) && key in shelf {
      OriginalKept(shelf, result, remaining, key);
    }
  }

  /** Visiting a key whose album spans several discs and replacing it by
      its per-disc albums keeps the state of the split. */
  lemma SeparatedStep(shelf: map<string, Album>, result: map<string, Album>, remaining: set<string>, key: string,
                      made: seq<Album>, next: map<string, Album>)
    requires Separated(shelf, result, remaining) && key in remaining
    requires key in shelf && result[key] == shelf[key] && |shelf[key].discs| > 1
    requires |made| == |shelf[key].discs| && DiscAlbums(made, shelf[key], shelf[key].discs, shelf.Values)
    requires next == (result + Zip(DiscKeyList(shelf[key].album, shelf[key].discs), made)) - {key}
    ensures Separated(shelf, next, remaining - {key})
  {
    var a := shelf[key];
    var keys := DiscKeyList(a.album, a.discs);
    assert a.Valid();
    DiscsOfDistinct(Infos(a.tracks));
    DiscKeyListDistinct(a.album, a.discs);
    SplitAlbumResult(result, key, keys, made, next);
    StepNewAlbums(shelf, key, keys, made, next);
    forall k | k in next
      ensures next[k].Valid()
      ensures (k in shelf && next[k] == shelf[k]) || IsNewDiscAlbum(next[k], k, shelf)
      ensures k in remaining - {key} || |next[k].discs| <= 1
    {
      if k !in keys {
        assert next[k] == result[k];
      }
    }
    forall k | k in remaining - {key}
      ensures k in next
    {
      assert k in result;
    }
    forall k | k in shelf && |shelf[k].discs| <= 1
      ensures k in next
    {
      assert k in result && k != key;
    }
    if SplitFree(shelf) {
      ReplacedStep(shelf, result, remaining, key, keys, made, next);
    }
  }

  /** With no colliding keys, the albums split before stay replaced, and
      the one split now is replaced too. */
  lemma ReplacedStep(shelf: map<string, Album>, result: map<string, Album>, remaining: set<string>, key: string,
                     keys: seq<string>, made: seq<Album>, next: map<string, Album>)
    requires SplitFree(shelf) && Separated(shelf, result, remaining)
    requires key in shelf && |shelf[key].discs| > 1
    requires |made| == |shelf[key].discs| && DiscAlbums(made, shelf[key], shelf[key].discs, shelf.Values)
    requires keys == DiscKeyList(shelf[key].album, shelf[key].discs)
    requires forall k :: k in next <==> (k in result || k in keys) && k != key
    requires forall k :: k in next && k !in keys ==> next[k] == result[k]
    requires forall i :: 0 <= i < |keys| && keys[i] != key ==> keys[i] in next && next[keys[i]] == made[i]
    ensures forall k0 :: k0 in shelf && k0 !in remaining - {key} && |shelf[k0].discs| > 1 ==> Replaced(shelf, next, k0)
  {
    var a := shelf[key];
    forall k0 | k0 in shelf && k0 !in remaining - {key} && |shelf[k0].discs| > 1
      ensures Replaced(shelf, next, k0)
    {
      if k0 == key {
        forall d | d in a.discs
          ensures DiscKey(a.album, d) in next && IsDiscAlbum(next[DiscKey(a.album, d)], a, d)
        {
          var i :| 0 <= i < |a.discs| && a.discs[i] == d;
          assert keys[i] == DiscKey(a.album, d) && keys[i] !in shelf;
          assert IsDiscAlbum(made[i], a, a.discs[i]);
        }
      } else {
        assert Replaced(shelf, result, k0);
        assert k0 !in keys by {
          forall i | 0 <= i < |keys| ensures keys[i] != k0 {
            assert keys[i] == DiscKey(a.album, a.discs[i]) && a.discs[i] in a.discs;
          }
        }
        forall d | d in shelf[k0].discs
          ensures DiscKey(shelf[k0].album, d) in next
                  && IsDiscAlbum(next[DiscKey(shelf[k0].album, d)], shelf[k0], d)
        {
          var dk := DiscKey(shelf[k0].album, d);
          assert dk !in shelf;
          assert dk !in keys by {
            forall i | 0 <= i < |keys| ensures keys[i] != dk {
              assert keys[i] == DiscKey(a.album, a.discs[i]) && a.discs[i] in a.discs;
            }
          }
          assert next[dk] == result[dk];
        }
      }
    }
  }

  /** Under each disc key, the split files one of its new per-disc albums. */
  lemma StepNewAlbums(shelf: map<string, Album>, key: string, keys: seq<string>, made: seq<Album>,
                      next: map<string, Album>)
    requires key in shelf && |shelf[key].discs| > 1
    requires |made| == |shelf[key].discs| && DiscAlbums(made, shelf[key], shelf[key].discs, shelf.Values)
    requires keys == DiscKeyList(shelf[key].album, shelf[key].discs)
    requires forall i :: 0 <= i < |keys| && keys[i] != key ==> keys[i] in next && next[keys[i]] == made[i]
    ensures forall k :: k in keys && k != key ==> k in next && IsNewDiscAlbum(next[k], k, shelf)
  {
    var a := shelf[key];
    forall k | k in keys && k != key
      ensures k in next && IsNewDiscAlbum(next[k], k, shelf)
    {
      var i :| 0 <= i < |keys| && keys[i] == k;
      var d := a.discs[i];
      assert d in a.discs && k == DiscKey(a.album, d) && IsDiscAlbum(made[i], a, d);
    }
  }

  /** What "Separate multi-disc albums" leaves of one artist's album map:
      no album spans more than one disc; every album is either one that was
      already there, under the same key, or the album of one disc of a
      multi-disc album of the map, filed under that disc's key; no
      single-disc album's key is lost; and when no disc key collides with
      another key, every multi-disc album is replaced by its per-disc
      albums. */
  ghost predicate DiscsSplit(shelf: map<string, Album>, result: map<string, Album>)
    reads shelf.Values, result.Values
  {
    (forall k :: k in result ==> result[k].Valid() && |result[k].discs| <= 1)
    && (forall k :: k in result ==> (k in shelf && result[k] == shelf[k]) || IsNewDiscAlbum(result[k], k, shelf))
    && (forall k :: k in shelf && |shelf[k].discs| <= 1 ==> k in result)
    && (SplitFree(shelf) ==> forall k0 :: k0 in shelf && |shelf[k0].discs| > 1 ==> Replaced(shelf, result, k0))
  }

  /** After the split, with no colliding keys, a multi-disc album's tracks
      are all found again: the album of each of its discs holds exactly that
      disc's tracks, in order, and together they hold as many tracks as the
      album did. */
  lemma SplitKeepsAlbumTracks(shelf: map<string, Album>, result: map<string, Album>, k0: string)
    requires DiscsSplit(shelf, result) && SplitFree(shelf)
    requires k0 in shelf && |shelf[k0].discs| > 1 && shelf[k0].Valid() && Numbered(shelf[k0])
    ensures k0 !in result
    ensures forall d :: d in shelf[k0].discs ==>
              DiscKey(shelf[k0].album, d) in result
              && Infos(result[DiscKey(shelf[k0].album, d)].tracks) == FilterDisc(Infos(shelf[k0].tracks), d)
    ensures SplitSizes(Infos(shelf[k0].tracks), shelf[k0].discs) == |shelf[k0].tracks|
  {
    var a := shelf[k0];
    assert Replaced(shelf, result, k0);
    var s := Infos(a.tracks);
    forall i | 0 <= i < |s| ensures s[i].discNumber.Some? {
      assert s[i] == a.tracks[i].info;
    }
    SplitKeepsEveryTrack(s);
  }

  /** "Separate multi-disc albums" for one artist's album map, visiting its
      keys in any order, with the outcome `DiscsSplit` describes. */
  method SeparateDiscs(shelf: map<string, Album>) returns (result: map<string, Album>)
    requires forall k :: k in shelf ==> shelf[k].Valid()
    requires forall k :: k in shelf && |shelf[k].discs| > 1 ==> Numbered(shelf[k])
    ensures DiscsSplit(shelf, result)
  {
    result := shelf;
    var remaining := shelf.Keys;
    while remaining != {}
      invariant Separated(shelf, result, remaining)
      decreases remaining
    {
      var key :| key in remaining;
      result := VisitKey(shelf, result, remaining, key);
      remaining := remaining - {key};
    }
  }

  /** One visit of the split loop: the album under `key` is split when it
      spans more than one disc, and left alone otherwise. */
  method VisitKey(shelf: map<string, Album>, result: map<string, Album>, ghost remaining: set<string>, key: string)
      returns (next: map<string, Album>)
    requires forall k :: k in shelf && |shelf[k].discs| > 1 ==> Numbered(shelf[k])
    requires Separated(shelf, result, remaining) && key in remaining
    ensures Separated(shelf, next, remaining - {key})
  {
    var a := result[key];
    if a.GetDiscCount() > 1 {
      assert a == shelf[key];
      ghost var made;
      next, made := SplitAlbum(result, key, shelf.Values);
      SeparatedStep(shelf, result, remaining, key, made, next);
    } else {
      SeparatedSkip(shelf, result, remaining, key);
      next := result;
    }
  }
}
