/** The walk as a client sees it: nothing but cursor strings travel between the requests. */
module CursorWalk {
  import opened Options
  import opened Sorting
  import opened Timeline
  import opened Walks
  import opened CursorText
  import opened Cursor

  // What `OffsetDateTime` can represent, in nanoseconds: years -9999 to 9999.
  const MIN_TIME: int := -377_705_116_800_000_000_000
  const MAX_TIME: int := 253_402_300_799_999_999_999

  /** No cursor, an unreadable one and one outside the calendar all mean "from the start". */
  function KeysetOf(cursor: Option<Text>): Option<Key> {
    if cursor.None? then None
    else match DecodeMerged(cursor.value)
      case None => None
      case Some(k) => if MIN_TIME <= k.ts <= MAX_TIME then Some(k) else None
  }

  /** Keys the store can hold: a 64-bit nanosecond count and a 128-bit id. */
  ghost predicate Storable(k: Key) {
    -0x8000_0000_0000_0000 <= k.ts < 0x8000_0000_0000_0000 && k.id < UUID_BOUND
  }

  ghost predicate StorableFetches(fetches: seq<Fetch>, kinds: set<Kind>) {
    forall i, r | 0 <= i < |fetches| && InWanted(fetches[i], kinds, r) :: Storable(r.key)
  }

  function CursorOf(next: Option<Key>): Option<Text> {
    match next
    case None => None
    case Some(k) => Some(EncodeMerged(k))
  }

  function RunCursorWalk(fetches: seq<Fetch>, kinds: set<Kind>, limit: nat, cursor: Option<Text>): Walk {
    if fetches == [] then Walk([], false)
    else
      var m := Page(fetches[0], kinds, limit, KeysetOf(cursor));
      var next := CursorOf(m.next);
      if next.None? then Walk([m.rows], true)
      else
        var rest := RunCursorWalk(fetches[1..], kinds, limit, next);
        Walk([m.rows] + rest.pages, rest.finished)
  }

  /** The string stands for its key if the key's time is in the calendar, years -9999 to 9999, and for none if not. */
  lemma CursorCarriesTheKey(k: Key)
    requires InRange(k)
    ensures KeysetOf(CursorOf(Some(k))) ==
            if -377_705_116_800_000_000_000 <= k.ts <= 253_402_300_799_999_999_999 then Some(k) else None
  {
    MergedCursorRoundTrip(k);
    hide DecodeMerged;
    hide EncodeMerged;
  }

  lemma StorableKeyIsCarried(k: Key)
    requires Storable(k)
    ensures KeysetOf(CursorOf(Some(k))) == Some(k)
  {
    CursorCarriesTheKey(k);
    hide KeysetOf, CursorOf;
  }

  /** Passing strings loses nothing: the client's walk is the keyset walk. */
  lemma {:induction false} CursorWalkIsKeysetWalk(fetches: seq<Fetch>, kinds: set<Kind>, limit: nat,
                                                  cursor: Option<Text>)
    requires KeyedFetches(fetches, kinds) && StorableFetches(fetches, kinds)
    requires 1 <= limit <= MAX_SOURCE_PAGE
    ensures RunCursorWalk(fetches, kinds, limit, cursor) == RunWalk(fetches, kinds, limit, KeysetOf(cursor))
  {
    hide Page;
    hide WantedTables;
    hide DecodeMerged;
    hide EncodeMerged;
    hide Storable;
    if fetches != [] {
      var keyset := KeysetOf(cursor);
      var m := Page(fetches[0], kinds, limit, keyset);
      RequestFacts(fetches[0], kinds, limit, keyset);
      if m.next.Some? {
        assert m.rows[limit - 1] in m.rows;
        StorableKeyIsCarried(m.next.value);
        CursorWalkIsKeysetWalk(fetches[1..], kinds, limit, CursorOf(m.next));
      }
    }
  }
}
