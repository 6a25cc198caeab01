/** Which quoted message ids a history page may show: a memoised lookup per page
    (cmd/wad/history_methods.go). */
module QuoteValidation {
  import opened Text

  /** A stored message; `quoted` is the id its raw protocol message quotes, or "". */
  datatype Row = Row(chat: string, id: string, quoted: string)

  type Key = (string, string)

  /** What a row shows about its quote. */
  datatype Quote = NoQuote | QuotedMessageID(id: string) | Rejected

  /** Result of a lookup in the history store. */
  datatype Lookup = Found | NotExist | Failure

  const SAFE_MESSAGE_ID_MAX := 64

  predicate IsIdChar(c: char) {
    'A' <= c <= 'Z' || 'a' <= c <= 'z' || IsDigit(c) || c in {'-', '_', '.', ':', '@', '=', '+', '/'}
  }

  /** domain.MessageID.IsSafe */
  predicate IsSafe(id: string) { 1 <= |id| <= SAFE_MESSAGE_ID_MAX && forall c <- id :: IsIdChar(c) }

  function KeyOf(m: Row): Key { (m.chat, m.quoted) }

  ghost predicate InPage(msgs: seq<Row>, k: Key) { exists m <- msgs :: m.chat == k.0 && m.id == k.1 }

  /** The uncached check: safe, and in the page or in the store, in the same chat. */
  ghost function Direct(msgs: seq<Row>, stored: Key -> Lookup, m: Row): Quote {
    if m.quoted == "" then NoQuote
    else if IsSafe(m.quoted) && (InPage(msgs, KeyOf(m)) || stored(KeyOf(m)) == Found) then QuotedMessageID(m.quoted)
    else Rejected
  }

  /** What a reader of the page sees: nothing for a message that quotes nothing; the quoted
      id exactly when it is short and plain and names a message of the same chat, be it of
      this page or of the store; a rejection in every other case. */
  ghost predicate Shows(msgs: seq<Row>, stored: Key -> Lookup, m: Row, q: Quote) {
    var known := (exists n <- msgs :: n.chat == m.chat && n.id == m.quoted) || stored((m.chat, m.quoted)) == Found;
    var plain := forall c <- m.quoted ::
      'A' <= c <= 'Z' || 'a' <= c <= 'z' || '0' <= c <= '9' || c in {'-', '_', '.', ':', '@', '=', '+', '/'};
    && (q == NoQuote <==> m.quoted == "")
    && (q == QuotedMessageID(m.quoted) <==> 1 <= |m.quoted| <= 64 && plain && known)
    && (q.QuotedMessageID? ==> q.id == m.quoted)
  }

  lemma DirectShows(msgs: seq<Row>, stored: Key -> Lookup, m: Row)
    ensures Shows(msgs, stored, m, Direct(msgs, stored, m))
  {}

  /** The keys a page has to look up: safe quotes of messages outside the page. */
  ghost predicate Needed(msgs: seq<Row>, k: Key) {
    IsSafe(k.1) && !InPage(msgs, k) && exists m <- msgs :: KeyOf(m) == k
  }

  class HistoryStore {
    const stored: Key -> Lookup
    ghost var lookups: seq<Key>

    constructor (stored: Key -> Lookup)
      ensures this.stored == stored && lookups == []
    {
      this.stored := stored;
      lookups := [];
    }

    method GetRawProto(k: Key) returns (r: Lookup)
      modifies this
      ensures r == stored(k) && lookups == old(lookups) + [k]
    {
      lookups := lookups + [k];
      r := stored(k);
    }
  }

  /** The memo after the page was entered and `log` was looked up. */
  ghost predicate MemoOk(msgs: seq<Row>, stored: Key -> Lookup, log: seq<Key>, known: map<Key, bool>) {
    && (forall k :: k in known <==> InPage(msgs, k) || k in log)
    && (forall k | k in known :: known[k] == (InPage(msgs, k) || stored(k) == Found))
  }

  /** Every lookup was needed, none was repeated, none failed. */
  ghost predicate LogOk(msgs: seq<Row>, stored: Key -> Lookup, log: seq<Key>) {
    && (forall i, j | 0 <= i < j < |log| :: log[i] != log[j])
    && (forall k <- log :: Needed(msgs, k) && stored(k) != Failure)
  }

  /** Enters the page's own messages into the memo. */
  method EnterPage(msgs: seq<Row>, ghost stored: Key -> Lookup) returns (known: map<Key, bool>)
    ensures MemoOk(msgs, stored, [], known)
  {
    known := map[];
    for i := 0 to |msgs|
      invariant forall k :: k in known <==> InPage(msgs[..i], k)
      invariant forall k | k in known :: known[k]
    {
      assert msgs[..i + 1] == msgs[..i] + [msgs[i]];
      known := known[(msgs[i].chat, msgs[i].id) := true];
    }
    assert msgs[..|msgs|] == msgs;
  }

  /** The page is given up: the context is cancelled before a row, or a needed lookup fails. */
  ghost predicate Stopped(msgs: seq<Row>, stored: Key -> Lookup, cancelled: nat -> bool) {
    || cancelled(0) || (exists i | 0 <= i < |msgs| :: cancelled(i))
    || (exists k :: Needed(msgs, k) && stored(k) == Failure)
  }

  /** The loop before row `i`. */
  ghost predicate SoFar(msgs: seq<Row>, stored: Key -> Lookup, cancelled: nat -> bool, log: seq<Key>, known: map<Key, bool>,
                        out: seq<Quote>, i: nat)
  {
    && |out| == i <= |msgs| && !cancelled(0) && MemoOk(msgs, stored, log, known) && LogOk(msgs, stored, log)
    && (forall j | 0 <= j < i :: out[j] == Direct(msgs, stored, msgs[j]) && !cancelled(j))
    && (forall j | 0 <= j < i :: IsSafe(msgs[j].quoted) ==> KeyOf(msgs[j]) in known)
  }

  lemma SoFarMore(msgs: seq<Row>, stored: Key -> Lookup, cancelled: nat -> bool, log: seq<Key>, known: map<Key, bool>,
                  out: seq<Quote>, i: nat, log': seq<Key>, memo: map<Key, bool>, q: Quote)
    requires i < |msgs| && SoFar(msgs, stored, cancelled, log, known, out, i) && !cancelled(i)
    requires MemoOk(msgs, stored, log', memo) && LogOk(msgs, stored, log') && known.Keys <= memo.Keys
    requires q == Direct(msgs, stored, msgs[i]) && (IsSafe(msgs[i].quoted) ==> KeyOf(msgs[i]) in memo)
    ensures SoFar(msgs, stored, cancelled, log', memo, out + [q], i + 1)
  {}

  /** The rows of a page that was not given up. */
  ghost predicate PageOk(msgs: seq<Row>, stored: Key -> Lookup, log: seq<Key>, out: seq<Quote>) {
    && |out| == |msgs|
    && (forall i | 0 <= i < |msgs| :: out[i] == Direct(msgs, stored, msgs[i]) && Shows(msgs, stored, msgs[i], out[i]))
    && LogOk(msgs, stored, log)
    && (forall k :: Needed(msgs, k) ==> k in log)
  }

  lemma PageDone(msgs: seq<Row>, stored: Key -> Lookup, cancelled: nat -> bool, log: seq<Key>, known: map<Key, bool>, out: seq<Quote>)
    requires SoFar(msgs, stored, cancelled, log, known, out, |msgs|)
    ensures PageOk(msgs, stored, log, out) && !Stopped(msgs, stored, cancelled)
  {
    forall i | 0 <= i < |msgs|
      ensures Shows(msgs, stored, msgs[i], out[i])
    {
      DirectShows(msgs, stored, msgs[i]);
    }
    forall k | Needed(msgs, k)
      ensures k in log && stored(k) != Failure
    {
      var m :| m in msgs && KeyOf(m) == k;
      assert k in known;
    }
  }

  /** storedToWireValidated, quote metadata only. `cancelled(i)` says whether the
      context is found cancelled before row `i`. */
  method StoredToWireValidated(store: HistoryStore?, msgs: seq<Row>, cancelled: nat -> bool)
    returns (r: Option<seq<Quote>>)
    requires store != null ==> store.lookups == []
    modifies store
    ensures store != null && r.Some? ==> PageOk(msgs, store.stored, store.lookups, r.value)
    ensures r.None? <==> store == null || Stopped(msgs, store.stored, cancelled)
  {
    if cancelled(0) {
      return None;
    }
    if store == null {
      return None;
    }
    var out: seq<Quote> := [];
    var known := EnterPage(msgs, store.stored);
    for i := 0 to |msgs|
      invariant SoFar(msgs, store.stored, cancelled, store.lookups, known, out, i)
    {
      if cancelled(i) {
        return None;
      }
      ghost var log := store.lookups;
      var q, memo, failed := Validate(store, msgs, i, known);
      if failed {
        return None;
      }
      SoFarMore(msgs, store.stored, cancelled, log, known, out, i, store.lookups, memo, q);
      known, out := memo, out + [q];
    }
    PageDone(msgs, store.stored, cancelled, store.lookups, known, out);
    return Some(out);
  }

  /** One row: memo first, then at most one lookup. */
  method Validate(store: HistoryStore, msgs: seq<Row>, i: nat, known: map<Key, bool>)
    returns (q: Quote, memo: map<Key, bool>, failed: bool)
    requires i < |msgs|
    requires MemoOk(msgs, store.stored, store.lookups, known) && LogOk(msgs, store.stored, store.lookups)
    modifies store
    ensures failed ==> Needed(msgs, KeyOf(msgs[i])) && store.stored(KeyOf(msgs[i])) == Failure
    ensures !failed ==>
      && q == Direct(msgs, store.stored, msgs[i])
      && MemoOk(msgs, store.stored, store.lookups, memo) && LogOk(msgs, store.stored, store.lookups)
      && (IsSafe(msgs[i].quoted) ==> KeyOf(msgs[i]) in memo)
    ensures known.Keys <= memo.Keys
  {
    var m := msgs[i];
    if m.quoted == "" {
      return NoQuote, known, false;
    }
    if !IsSafe(m.quoted) {
      return Rejected, known, false;
    }
    memo := known;
    var key := KeyOf(m);
    if key !in memo {
      assert Needed(msgs, key) by {
        assert m in msgs;
      }
      ghost var log := store.lookups;
      var found := store.GetRawProto(key);
      if found == Failure {
        return Rejected, memo, true;
      }
      assert forall k :: k in store.lookups <==> k in log || k == key;
      memo := memo[key := found == Found];
    }
    q := if memo[key] then QuotedMessageID(m.quoted) else Rejected;
    failed := false;
  }

  /** A quote never resolves across chats: what another chat holds is irrelevant. */
  lemma OtherChatsIrrelevant(msgs: seq<Row>, a: Key -> Lookup, b: Key -> Lookup, m: Row)
    requires forall k: Key | k.0 == m.chat :: a(k) == b(k)
    ensures Direct(msgs, a, m) == Direct(msgs, b, m)
    ensures Direct(msgs, a, m) == Direct(InChat(msgs, m.chat), a, m)
  {
    InChatKeeps(msgs, m.chat, KeyOf(m));
  }

  function InChat(msgs: seq<Row>, chat: string): seq<Row> {
    if msgs == [] then [] else (if msgs[0].chat == chat then [msgs[0]] else []) + InChat(msgs[1..], chat)
  }

  lemma {:induction false} InChatMembers(msgs: seq<Row>, chat: string)
    ensures forall m :: m in InChat(msgs, chat) <==> m in msgs && m.chat == chat
  {
    if msgs != [] {
      InChatMembers(msgs[1..], chat);
      assert msgs == [msgs[0]] + msgs[1..];
    }
  }

  lemma InChatKeeps(msgs: seq<Row>, chat: string, k: Key)
    requires k.0 == chat
    ensures InPage(InChat(msgs, chat), k) <==> InPage(msgs, k)
  {
    InChatMembers(msgs, chat);
  }
}
