/**
  The persisted user list: one storage slot `'userAnimeList'` holding the
  serialised list, read and rewritten whole by every operation.
*/
module LocalStorage {
  import opened Optional
  import opened AnimeTypes
  import Seqs

  /**
    What the slot holds: nothing, the empty string, text that does not parse,
    or the serialisation of a list of entries.
  */
  datatype Slot = Missing | Blank | Unparseable | Saved(entries: seq<Entry>)

  /** What `getUserAnimeList` makes of the slot: every unreadable state reads as the empty list. */
  function ReadSlot(slot: Slot): (list: seq<Entry>)
    ensures !slot.Saved? ==> list == []
    ensures slot.Saved? ==> list == slot.entries
  {
    if slot.Saved? then slot.entries else []
  }

  /** `list.find(entry => entry.animeId === animeId)`. */
  function FindById(list: seq<Entry>, animeId: int): Option<Entry> {
    Seqs.Find(list, (e: Entry) => e.animeId == animeId)
  }

  /** `list.filter(entry => entry.animeId !== animeId)`. */
  function RemoveById(list: seq<Entry>, animeId: int): seq<Entry> {
    Seqs.Filter(list, (e: Entry) => e.animeId != animeId)
  }

  /**
    The two clock reads an add makes, one for `dateAdded` and one for
    `lastUpdated`; they may differ if the clock ticks between them.
  */
  datatype Stamps = Stamps(added: string, updated: string)

  /** The entry `addAnimeToList` creates for a title not yet in the list. */
  function NewEntry(anime: Anime, status: Option<WatchStatus>, now: Stamps): (e: Entry)
    ensures e.animeId == anime.id && e.anime == anime
    ensures e.status == status.GetOr(PlanToWatch)
    ensures e.episodesWatched == 0
    ensures e.userRating.None? && e.notes.None? && e.startDate.None? && e.finishDate.None?
    ensures e.isFavorite.None? && e.rewatchCount.None?
    ensures e.dateAdded == now.added && e.lastUpdated == now.updated
  {
    Entry(
      animeId := anime.id,
      anime := anime,
      status := if status.Some? then status.value else PlanToWatch,
      episodesWatched := 0,
      userRating := None,
      notes := None,
      startDate := None,
      finishDate := None,
      dateAdded := now.added,
      lastUpdated := now.updated,
      isFavorite := None,
      rewatchCount := None)
  }

  /** What an add does: return the entry already there, or create one and the list to save. */
  datatype AddOutcome = Found(entry: Entry) | Created(entry: Entry, updated: seq<Entry>)

  function AddToList(list: seq<Entry>, anime: Anime, status: Option<WatchStatus>, now: Stamps): AddOutcome {
    match FindById(list, anime.id)
    case Some(e) => Found(e)
    case None =>
      var e := NewEntry(anime, status, now);
      Created(e, list + [e])
  }

  /** The outcome's list: unchanged when the title was already present. */
  function ListAfterAdd(list: seq<Entry>, anime: Anime, status: Option<WatchStatus>, now: Stamps): seq<Entry> {
    match AddToList(list, anime, status, now)
    case Found(_) => list
    case Created(_, updated) => updated
  }

  /**
    Adding a title already in the list returns its first entry, unchanged,
    whatever status and time are given, and leaves the list as it was.
  */
  lemma AddExistingReturnsIt(list: seq<Entry>, anime: Anime, status: Option<WatchStatus>, now: Stamps, i: int)
    requires 0 <= i < |list| && list[i].animeId == anime.id
    requires forall j :: 0 <= j < i ==> list[j].animeId != anime.id
    ensures AddToList(list, anime, status, now) == Found(list[i])
    ensures ListAfterAdd(list, anime, status, now) == list
  {
    Seqs.FindFirst(list, (e: Entry) => e.animeId == anime.id, i);
  }

  /**
    Adding a title not yet in the list appends exactly its new entry at the end;
    the earlier entries stay, in order.
  */
  lemma AddNewAppends(list: seq<Entry>, anime: Anime, status: Option<WatchStatus>, now: Stamps)
    requires forall j :: 0 <= j < |list| ==> list[j].animeId != anime.id
    ensures var r := AddToList(list, anime, status, now);
      && r == Created(NewEntry(anime, status, now), r.updated)
      && |r.updated| == |list| + 1
      && r.updated[..|list|] == list
      && r.updated[|list|] == r.entry
  {
    var r := AddToList(list, anime, status, now);
    assert r.updated[..|list|] == list;
  }

  /** Whether the title is in the list decides which way an add goes. */
  lemma AddFoundIffPresent(list: seq<Entry>, anime: Anime, status: Option<WatchStatus>, now: Stamps)
    ensures AddToList(list, anime, status, now).Found? <==> exists i :: 0 <= i < |list| && list[i].animeId == anime.id
  {
  }

  /** A second add of the same title returns the entry the first add made, and writes nothing. */
  lemma AddTwiceKeepsFirst(list: seq<Entry>, anime: Anime, s1: Option<WatchStatus>, t1: Stamps, s2: Option<WatchStatus>, t2: Stamps)
    ensures var first := AddToList(list, anime, s1, t1);
      var after := ListAfterAdd(list, anime, s1, t1);
      && AddToList(after, anime, s2, t2) == Found(first.entry)
      && ListAfterAdd(after, anime, s2, t2) == after
  {
    var first := AddToList(list, anime, s1, t1);
    var after := ListAfterAdd(list, anime, s1, t1);
    if first.Found? {
      var k :| 0 <= k < |list| && list[k] == first.entry && list[k].animeId == anime.id
        && forall j :: 0 <= j < k ==> list[j].animeId != anime.id;
      AddExistingReturnsIt(list, anime, s2, t2, k);
    } else {
      AddNewAppends(list, anime, s1, t1);
      var k := |list|;
      assert forall j :: 0 <= j < k ==> after[j] == list[j];
      AddExistingReturnsIt(after, anime, s2, t2, k);
    }
  }

  /** Adding keeps title ids pairwise distinct, and keeps each key equal to its title's id. */
  lemma AddPreservesInvariants(list: seq<Entry>, anime: Anime, status: Option<WatchStatus>, now: Stamps)
    requires UniqueIds(list) && KeysMatch(list)
    ensures UniqueIds(ListAfterAdd(list, anime, status, now))
    ensures KeysMatch(ListAfterAdd(list, anime, status, now))
  {
    if AddToList(list, anime, status, now).Created? {
      AddNewAppends(list, anime, status, now);
    }
  }

  /**
    Remove keeps exactly the entries with a different key, each as often as
    before and in their original order.
  */
  lemma RemoveKeepsOthers(list: seq<Entry>, animeId: int)
    ensures forall e :: e in RemoveById(list, animeId) <==> e in list && e.animeId != animeId
    ensures forall e :: multiset(RemoveById(list, animeId))[e] == if e.animeId != animeId then multiset(list)[e] else 0
    ensures Seqs.IsSubsequence(RemoveById(list, animeId), list)
  {
    var keep := (e: Entry) => e.animeId != animeId;
    forall e ensures multiset(RemoveById(list, animeId))[e] == if e.animeId != animeId then multiset(list)[e] else 0 {
      Seqs.FilterCounts(list, keep, e);
    }
    Seqs.FilterIsSubsequence(list, keep);
  }

  /** Removing an id that is not in the list leaves the list unchanged. */
  lemma RemoveAbsentUnchanged(list: seq<Entry>, animeId: int)
    requires forall i :: 0 <= i < |list| ==> list[i].animeId != animeId
    ensures RemoveById(list, animeId) == list
  {
    Seqs.FilterAllKept(list, (e: Entry) => e.animeId != animeId);
  }

  /** Removing twice is removing once. */
  lemma RemoveIdempotent(list: seq<Entry>, animeId: int)
    ensures RemoveById(RemoveById(list, animeId), animeId) == RemoveById(list, animeId)
  {
    Seqs.FilterIdempotent(list, (e: Entry) => e.animeId != animeId);
  }

  /** Removing keeps title ids pairwise distinct, and keeps each key equal to its title's id. */
  lemma {:induction false} RemovePreservesInvariants(list: seq<Entry>, animeId: int)
    requires UniqueIds(list) && KeysMatch(list)
    ensures UniqueIds(RemoveById(list, animeId)) && KeysMatch(RemoveById(list, animeId))
  {
    if list != [] {
      var rest := RemoveById(list[1..], animeId);
      RemovePreservesInvariants(list[1..], animeId);
      if list[0].animeId != animeId {
        var r := [list[0]] + rest;
        assert RemoveById(list, animeId) == r;
        forall j | 0 < j < |r| ensures r[0].animeId != r[j].animeId {
          assert r[j] in rest;
          var k :| 0 <= k < |list[1..]| && list[1..][k] == r[j];
          assert list[k + 1] == r[j];
        }
      }
    }
  }

  /** Removing a title just added restores the list it was added to. */
  lemma RemoveUndoesAdd(list: seq<Entry>, anime: Anime, status: Option<WatchStatus>, now: Stamps)
    requires forall j :: 0 <= j < |list| ==> list[j].animeId != anime.id
    ensures RemoveById(ListAfterAdd(list, anime, status, now), anime.id) == list
  {
    var keep := (e: Entry) => e.animeId != anime.id;
    Seqs.FilterSnoc(list, NewEntry(anime, status, now), keep);
    RemoveAbsentUnchanged(list, anime.id);
  }

  /** The store over the single storage slot. */
  class UserListStore {
    var slot: Slot

    constructor (initial: Slot)
      ensures slot == initial
    {
      slot := initial;
    }

    /** The list as the next read will return it. */
    function Contents(): seq<Entry>
      reads this
    {
      ReadSlot(slot)
    }

    /** `getUserAnimeList`: never fails; a missing, empty or unparseable slot reads as `[]`. */
    method GetUserAnimeList() returns (list: seq<Entry>)
      ensures list == ReadSlot(slot)
      ensures !slot.Saved? ==> list == []
    {
      if slot.Saved? {
        list := slot.entries;
      } else {
        list := [];
      }
    }

    /**
      `saveUserAnimeList`: overwrite the slot with the whole list. `writeOk` is
      whether the storage accepted the write; a refused write is swallowed and
      leaves the slot as it was.
    */
    method SaveUserAnimeList(list: seq<Entry>, writeOk: bool)
      modifies this
      ensures slot == if writeOk then Saved(list) else old(slot)
      ensures writeOk ==> Contents() == list
    {
      if writeOk {
        slot := Saved(list);
      }
    }

    /** `removeAnimeFromList`: read, drop every entry with that key, write back. */
    method RemoveAnimeFromList(animeId: int, writeOk: bool)
      modifies this
      ensures slot == if writeOk then Saved(RemoveById(old(Contents()), animeId)) else old(slot)
      ensures old(UniqueIds(Contents()) && KeysMatch(Contents())) ==> UniqueIds(Contents()) && KeysMatch(Contents())
    {
      var list := GetUserAnimeList();
      var updated := Seqs.Filter(list, (e: Entry) => e.animeId != animeId);
      SaveUserAnimeList(updated, writeOk);
      if UniqueIds(list) && KeysMatch(list) {
        RemovePreservesInvariants(list, animeId);
      }
    }

    /**
      `addAnimeToList`: return the entry already kept for `anime.id`, writing
      nothing and ignoring `status`; otherwise push a new entry and save.
      `now` holds the two clock reads the new entry is stamped with.
    */
    method AddAnimeToList(anime: Anime, status: Option<WatchStatus>, now: Stamps, writeOk: bool) returns (entry: Entry)
      modifies this
      ensures entry == AddToList(old(Contents()), anime, status, now).entry
      ensures AddToList(old(Contents()), anime, status, now).Found? ==> slot == old(slot)
      ensures AddToList(old(Contents()), anime, status, now).Created? ==>
        slot == if writeOk then Saved(old(Contents()) + [entry]) else old(slot)
      ensures old(UniqueIds(Contents()) && KeysMatch(Contents())) ==> UniqueIds(Contents()) && KeysMatch(Contents())
    {
      var list := GetUserAnimeList();
      var existing := Seqs.Find(list, (e: Entry) => e.animeId == anime.id);
      if existing.Some? {
        return existing.value;
      }
      entry := NewEntry(anime, status, now);
      if UniqueIds(list) && KeysMatch(list) {
        AddPreservesInvariants(list, anime, status, now);
      }
      list := list + [entry];
      SaveUserAnimeList(list, writeOk);
    }
  }
}
