/**
 * `FirstSeasonAnimeFilter` of `core/anime_filters.py`: a title is kept
 * unless some related title was released strictly before it.
 */
module AnimeFilters {
  import opened AnimeModel

  /** Some related title in `rels` was released strictly before `d`. */
  predicate SomeEarlier(rels: seq<RelatedAnimeData>, d: Date) {
    exists k :: 0 <= k < |rels| && Before(rels[k].released, d)
  }

  /** The loop of `filter`: `False` at the first related title released before `d`, else `True`. */
  function NoneEarlier(rels: seq<RelatedAnimeData>, d: Date): bool
    decreases |rels|
  {
    if |rels| == 0 then true
    else if Before(rels[0].released, d) then false
    else NoneEarlier(rels[1..], d)
  }

  /**
   * `FirstSeasonAnimeFilter.filter(data)`. Related titles are always dates,
   * and so is the title's own release date when it comes from Shikimori.
   */
  function FirstSeason(data: ExtendedAnimeData): bool
    requires data.base.released.Day?
  {
    NoneEarlier(data.relatedAnimes, data.base.released.date)
  }

  /** `str(FirstSeasonAnimeFilter())`: the class name. */
  function FilterName(): (s: string)
    ensures s == "FirstSeasonAnimeFilter"
  {
    "FirstSeasonAnimeFilter"
  }

  /** The scan keeps a title exactly when no related title is strictly earlier. */
  lemma {:induction false} NoneEarlierMeaning(rels: seq<RelatedAnimeData>, d: Date)
    ensures NoneEarlier(rels, d) <==> !SomeEarlier(rels, d)
    decreases |rels|
  {
    if |rels| > 0 {
      NoneEarlierMeaning(rels[1..], d);
      if SomeEarlier(rels[1..], d) {
        var k :| 0 <= k < |rels[1..]| && Before(rels[1..][k].released, d);
        assert rels[k + 1] == rels[1..][k];
      }
      if SomeEarlier(rels, d) && !Before(rels[0].released, d) {
        var k :| 0 <= k < |rels| && Before(rels[k].released, d);
        assert rels[1..][k - 1] == rels[k];
      }
    }
  }

  /** `filter` returns `False` exactly when some related title came out strictly earlier. */
  lemma FirstSeasonIff(data: ExtendedAnimeData)
    requires data.base.released.Day?
    ensures !FirstSeason(data) <==> SomeEarlier(data.relatedAnimes, data.base.released.date)
  {
    NoneEarlierMeaning(data.relatedAnimes, data.base.released.date);
  }

  /** A title without related titles is kept. */
  lemma NoRelatedKept(data: ExtendedAnimeData)
    requires data.base.released.Day? && data.relatedAnimes == []
    ensures FirstSeason(data)
  {
  }

  /** The comparison is strict: related titles released the same day or later never reject. */
  lemma SameDayKept(data: ExtendedAnimeData)
    requires data.base.released.Day?
    requires forall k :: 0 <= k < |data.relatedAnimes| ==> !Before(data.relatedAnimes[k].released, data.base.released.date)
    ensures FirstSeason(data)
  {
    FirstSeasonIff(data);
  }

  /** The order of the related titles does not matter. */
  lemma OrderIndependent(data: ExtendedAnimeData, rels: seq<RelatedAnimeData>)
    requires data.base.released.Day?
    requires multiset(rels) == multiset(data.relatedAnimes)
    ensures FirstSeason(data.(relatedAnimes := rels)) == FirstSeason(data)
  {
    var d := data.base.released.date;
    FirstSeasonIff(data);
    FirstSeasonIff(data.(relatedAnimes := rels));
    if SomeEarlier(rels, d) {
      var k :| 0 <= k < |rels| && Before(rels[k].released, d);
      assert rels[k] in multiset(data.relatedAnimes);
      var j :| 0 <= j < |data.relatedAnimes| && data.relatedAnimes[j] == rels[k];
    }
    if SomeEarlier(data.relatedAnimes, d) {
      var k :| 0 <= k < |data.relatedAnimes| && Before(data.relatedAnimes[k].released, d);
      assert data.relatedAnimes[k] in multiset(rels);
      var j :| 0 <= j < |rels| && rels[j] == data.relatedAnimes[k];
    }
  }

  /** Only release dates are read: titles with the same dates get the same answer. */
  lemma ReadsOnlyDates(a: ExtendedAnimeData, b: ExtendedAnimeData)
    requires a.base.released.Day? && b.base.released == a.base.released
    requires |a.relatedAnimes| == |b.relatedAnimes|
    requires forall k :: 0 <= k < |a.relatedAnimes| ==> a.relatedAnimes[k].released == b.relatedAnimes[k].released
    ensures FirstSeason(a) == FirstSeason(b)
  {
    FirstSeasonIff(a);
    FirstSeasonIff(b);
  }
}
