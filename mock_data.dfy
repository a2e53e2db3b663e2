/** The bundled sample catalog and its two lookup helpers. */
module MockData {
  import opened Optional
  import opened AnimeTypes
  import Seqs

  /** `mockAnimeList`: six well-known series. */
  const MockAnimeList: seq<Anime> := [
    Anime(
      id := 16498,
      title := "Shingeki no Kyojin",
      englishTitle := Some("Attack on Titan"),
      japaneseTitle := Some("進撃の巨人"),
      coverImage := "https://cdn.myanimelist.net/images/anime/10/47347.jpg",
      largeCoverImage := "https://cdn.myanimelist.net/images/anime/10/47347l.jpg",
      synopsis := Some("Centuries ago, mankind was slaughtered to near extinction by monstrous humanoid creatures called titans, forcing humans to hide in fear behind enormous concentric walls."),
      kind := "TV",
      totalEpisodes := Some(25),
      airingStatus := "Finished Airing",
      averageScore := Some(9.0),
      popularity := Some(1),
      genres := ["Action", "Drama", "Fantasy", "Military"],
      studios := ["Wit Studio"],
      year := Some(2013),
      season := Some("spring"),
      duration := Some("24 min per ep"),
      rating := Some("R - 17+ (violence & profanity)")),
    Anime(
      id := 1535,
      title := "Death Note",
      englishTitle := Some("Death Note"),
      japaneseTitle := Some("デスノート"),
      coverImage := "https://cdn.myanimelist.net/images/anime/9/9453.jpg",
      largeCoverImage := "https://cdn.myanimelist.net/images/anime/9/9453l.jpg",
      synopsis := Some("A high school student discovers a supernatural notebook that allows him to kill anyone by writing their name in it."),
      kind := "TV",
      totalEpisodes := Some(37),
      airingStatus := "Finished Airing",
      averageScore := Some(9.0),
      popularity := Some(2),
      genres := ["Supernatural", "Thriller", "Psychological"],
      studios := ["Madhouse"],
      year := Some(2006),
      season := Some("fall"),
      duration := Some("23 min per ep"),
      rating := Some("R - 17+ (violence & profanity)")),
    Anime(
      id := 11061,
      title := "Hunter x Hunter (2011)",
      englishTitle := Some("Hunter x Hunter"),
      japaneseTitle := Some("ハンター×ハンター"),
      coverImage := "https://cdn.myanimelist.net/images/anime/11/33657.jpg",
      largeCoverImage := "https://cdn.myanimelist.net/images/anime/11/33657l.jpg",
      synopsis := Some("A young boy named Gon discovers that his father, who left him at a young age, is actually a world-renowned Hunter."),
      kind := "TV",
      totalEpisodes := Some(148),
      airingStatus := "Finished Airing",
      averageScore := Some(9.0),
      popularity := Some(3),
      genres := ["Action", "Adventure", "Fantasy"],
      studios := ["Madhouse"],
      year := Some(2011),
      season := Some("fall"),
      duration := Some("23 min per ep"),
      rating := Some("PG-13 - Teens 13 or older")),
    Anime(
      id := 40748,
      title := "Jujutsu Kaisen",
      englishTitle := Some("Jujutsu Kaisen"),
      japaneseTitle := Some("呪術廻戦"),
      coverImage := "https://cdn.myanimelist.net/images/anime/1171/109222.jpg",
      largeCoverImage := "https://cdn.myanimelist.net/images/anime/1171/109222l.jpg",
      synopsis := Some("A boy swallows a cursed talisman - the finger of a demon - and becomes cursed himself."),
      kind := "TV",
      totalEpisodes := Some(24),
      airingStatus := "Finished Airing",
      averageScore := Some(8.6),
      popularity := Some(4),
      genres := ["Action", "Supernatural", "School"],
      studios := ["MAPPA"],
      year := Some(2020),
      season := Some("fall"),
      duration := Some("23 min per ep"),
      rating := Some("R - 17+ (violence & profanity)")),
    Anime(
      id := 38000,
      title := "Kimetsu no Yaiba",
      englishTitle := Some("Demon Slayer"),
      japaneseTitle := Some("鬼滅の刃"),
      coverImage := "https://cdn.myanimelist.net/images/anime/1286/99889.jpg",
      largeCoverImage := "https://cdn.myanimelist.net/images/anime/1286/99889l.jpg",
      synopsis := Some("A family is attacked by demons and only two members survive - Tanjiro and his sister Nezuko, who is turning into a demon slowly."),
      kind := "TV",
      totalEpisodes := Some(26),
      airingStatus := "Finished Airing",
      averageScore := Some(8.7),
      popularity := Some(5),
      genres := ["Action", "Historical", "Supernatural"],
      studios := ["Ufotable"],
      year := Some(2019),
      season := Some("spring"),
      duration := Some("23 min per ep"),
      rating := Some("R - 17+ (violence & profanity)")),
    Anime(
      id := 54492,
      title := "Chainsaw Man",
      englishTitle := Some("Chainsaw Man"),
      japaneseTitle := Some("チェンソーマン"),
      coverImage := "https://cdn.myanimelist.net/images/anime/1806/126216.jpg",
      largeCoverImage := "https://cdn.myanimelist.net/images/anime/1806/126216l.jpg",
      synopsis := Some("Denji has a simple dream—to live a happy and peaceful life, spending time with a girl he likes. This is a far cry from reality, however."),
      kind := "TV",
      totalEpisodes := Some(12),
      airingStatus := "Finished Airing",
      averageScore := Some(8.8),
      popularity := Some(6),
      genres := ["Action", "Supernatural"],
      studios := ["MAPPA"],
      year := Some(2022),
      season := Some("fall"),
      duration := Some("23 min per ep"),
      rating := Some("R - 17+ (violence & profanity)"))
  ]

  /** The ids of the sample catalog, in order. */
  const MockIds: seq<int> := [16498, 1535, 11061, 40748, 38000, 54492]

  lemma MockListShape()
    ensures |MockAnimeList| == |MockIds| == 6
    ensures forall i :: 0 <= i < |MockAnimeList| ==> MockAnimeList[i].id == MockIds[i]
  {
  }

  /** No two sample titles share an id, so a lookup by id is unambiguous. */
  lemma MockIdsDistinct()
    ensures forall i, j :: 0 <= i < |MockAnimeList| && 0 <= j < |MockAnimeList| && i != j ==>
      MockAnimeList[i].id != MockAnimeList[j].id
  {
    MockListShape();
  }

  /** `getAnimeById`: the first sample title with that id, or none. */
  function GetAnimeById(id: int): Option<Anime> {
    Seqs.Find(MockAnimeList, (a: Anime) => a.id == id)
  }

  /** A lookup finds a title exactly for the six known ids, and what it finds carries that id. */
  lemma GetAnimeByIdFinds(id: int)
    ensures GetAnimeById(id).Some? <==> id in MockIds
    ensures GetAnimeById(id).Some? ==> GetAnimeById(id).value.id == id && GetAnimeById(id).value in MockAnimeList
  {
    MockListShape();
    if id in MockIds {
      var i :| 0 <= i < |MockIds| && MockIds[i] == id;
      assert MockAnimeList[i].id == id;
    }
  }

  /** The end index `slice(0, end)` uses on a list of length `len`: negative counts from the back. */
  function SliceEnd(end: int, len: nat): (e: nat)
    ensures e <= len
    ensures 0 <= end ==> e == (if end < len then end else len)
    ensures end < 0 ==> e == (if len + end > 0 then len + end else 0)
  {
    if end < 0 then (if len + end > 0 then len + end else 0) else if end < len then end else len
  }

  /** `perm` lists every index of a sequence of length `n` exactly once. */
  predicate IsPermutation(perm: seq<int>, n: nat) {
    && |perm| == n
    && (forall i :: 0 <= i < |perm| ==> 0 <= perm[i] < n)
    && (forall i, j :: 0 <= i < j < |perm| ==> perm[i] != perm[j])
  }

  /**
    `getRandomAnime`: the first `count` titles (three when not given) of the
    catalog shuffled into the order `perm`. The random shuffle is the
    parameter `perm`; the result is drawn from the catalog without repeats.
  */
  function GetRandomAnime(count: Option<int>, perm: seq<int>): (r: seq<Anime>)
    requires IsPermutation(perm, |MockAnimeList|)
    ensures |r| == SliceEnd(count.GetOr(3), |MockAnimeList|)
    ensures forall i :: 0 <= i < |r| ==> r[i] == MockAnimeList[perm[i]]
    ensures forall i, j :: 0 <= i < j < |r| ==> r[i].id != r[j].id
  {
    MockIdsDistinct();
    var shuffled := seq(|perm|, i requires 0 <= i < |perm| => MockAnimeList[perm[i]]);
    shuffled[..SliceEnd(count.GetOr(3), |shuffled|)]
  }

  /** A repeat-free index list of length `k` names `k` different indices. */
  lemma {:induction false} ImageSize(perm: seq<int>, k: nat)
    requires k <= |perm|
    requires forall i, j :: 0 <= i < j < |perm| ==> perm[i] != perm[j]
    ensures |(set i | 0 <= i < k :: perm[i])| == k
  {
    if k != 0 {
      ImageSize(perm, k - 1);
      var prev := set i | 0 <= i < k - 1 :: perm[i];
      assert (set i | 0 <= i < k :: perm[i]) == prev + {perm[k - 1]};
      assert perm[k - 1] !in prev;
    }
  }

  /** The indices `0 .. n-1` as a set. */
  function Indices(n: nat): (r: set<int>)
    ensures |r| == n
    ensures forall x :: x in r <==> 0 <= x < n
  {
    if n == 0 then {} else Indices(n - 1) + {n - 1}
  }

  lemma SubsetOfSameSize(a: set<int>, b: set<int>)
    requires a <= b && |a| == |b|
    ensures a == b
  {
    assert a + (b - a) == b;
    assert a * (b - a) == {};
    assert |b - a| == 0;
  }

  /** A permutation of the indices names every index. */
  lemma PermutationIsOnto(perm: seq<int>, n: nat, k: int)
    requires IsPermutation(perm, n) && 0 <= k < n
    ensures exists i :: 0 <= i < n && perm[i] == k
  {
    ImageSize(perm, n);
    var image := set i | 0 <= i < n :: perm[i];
    SubsetOfSameSize(image, Indices(n));
    assert k in image;
  }

  /** Without a count, three titles come back; any count of six or more returns every sample title. */
  lemma GetRandomAnimeSizes(perm: seq<int>, count: int)
    requires IsPermutation(perm, |MockAnimeList|)
    ensures |GetRandomAnime(None, perm)| == 3
    ensures count >= |MockAnimeList| ==> forall a :: a in MockAnimeList ==> a in GetRandomAnime(Some(count), perm)
  {
    if count >= |MockAnimeList| {
      var r := GetRandomAnime(Some(count), perm);
      forall a | a in MockAnimeList
        ensures a in r
      {
        var k :| 0 <= k < |MockAnimeList| && MockAnimeList[k] == a;
        PermutationIsOnto(perm, |MockAnimeList|, k);
        var i :| 0 <= i < |MockAnimeList| && perm[i] == k;
        assert r[i] == a;
      }
    }
  }
}
