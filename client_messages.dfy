/** The web client's message list: messages received from the server are merged by id and kept
    in order of creation time, timestamps taken as integers. */
module ClientMessages {
  import opened Seqs
  import opened StableSort
  import opened Dtos

  function CreatedAt(m: SessionMessageDTO): int {
    m.createdAt
  }

  /** `sortMessagesByDate`: a sorted copy; the argument is a value and is never changed. */
  function SortMessagesByDate(messages: seq<SessionMessageDTO>): (r: seq<SessionMessageDTO>)
    ensures SortedBy(r, CreatedAt)
    ensures multiset(r) == multiset(messages)
  {
    SortBySorted(messages, CreatedAt);
    SortBy(messages, CreatedAt)
  }

  /** Messages created at the same instant keep their relative order. */
  lemma SortMessagesStable(messages: seq<SessionMessageDTO>, at: int)
    ensures Filter(SortMessagesByDate(messages), KeyIs(CreatedAt, at)) == Filter(messages, KeyIs(CreatedAt, at))
  {
    SortByStable(messages, CreatedAt, at);
  }

  /** `findIndex` on the id: the first position holding that id, or -1. */
  function FindIndex(messages: seq<SessionMessageDTO>, id: int): (r: int)
    ensures -1 <= r < |messages|
    ensures r == -1 <==> forall j :: 0 <= j < |messages| ==> messages[j].id != id
    ensures r >= 0 ==> messages[r].id == id && forall j :: 0 <= j < r ==> messages[j].id != id
  {
    if messages == [] then -1
    else if messages[0].id == id then 0
    else
      var k := FindIndex(messages[1..], id);
      if k == -1 then -1 else k + 1
  }

  /** The list before sorting: the first message with `newMsg`'s id replaced by it, or `newMsg`
      appended at the end when there is none. */
  function Upsert(messages: seq<SessionMessageDTO>, newMsg: SessionMessageDTO): (r: seq<SessionMessageDTO>)
    ensures FindIndex(messages, newMsg.id) >= 0 ==>
      var idx := FindIndex(messages, newMsg.id);
      |r| == |messages| && r[idx] == newMsg && forall j :: 0 <= j < |messages| && j != idx ==> r[j] == messages[j]
    ensures FindIndex(messages, newMsg.id) < 0 ==>
      |r| == |messages| + 1 && r[|messages|] == newMsg && forall j :: 0 <= j < |messages| ==> r[j] == messages[j]
  {
    var idx := FindIndex(messages, newMsg.id);
    if idx >= 0 then ReplaceAt(messages, idx, newMsg) else Append(messages, newMsg)
  }

  function Append(s: seq<SessionMessageDTO>, x: SessionMessageDTO): (r: seq<SessionMessageDTO>)
    ensures |r| == |s| + 1 && r[|s|] == x && forall j :: 0 <= j < |s| ==> r[j] == s[j]
  {
    s + [x]
  }

  /** `[...s.slice(0, idx), x, ...s.slice(idx + 1)]`. */
  function ReplaceAt(s: seq<SessionMessageDTO>, idx: nat, x: SessionMessageDTO): (r: seq<SessionMessageDTO>)
    requires idx < |s|
    ensures |r| == |s| && r[idx] == x
    ensures forall j :: 0 <= j < |s| && j != idx ==> r[j] == s[j]
  {
    s[..idx] + [x] + s[idx + 1..]
  }

  /** `upsertAndSortMessages`. */
  function UpsertAndSort(messages: seq<SessionMessageDTO>, newMsg: SessionMessageDTO): (r: seq<SessionMessageDTO>)
    ensures SortedBy(r, CreatedAt)
    ensures multiset(r) == multiset(Upsert(messages, newMsg))
  {
    SortMessagesByDate(Upsert(messages, newMsg))
  }

  /** Replacing keeps the length; a new id adds exactly one message. */
  lemma UpsertLength(messages: seq<SessionMessageDTO>, newMsg: SessionMessageDTO)
    ensures (exists j :: 0 <= j < |messages| && messages[j].id == newMsg.id) ==> |UpsertAndSort(messages, newMsg)| == |messages|
    ensures (forall j :: 0 <= j < |messages| ==> messages[j].id != newMsg.id) ==> |UpsertAndSort(messages, newMsg)| == |messages| + 1
  {
    var r := UpsertAndSort(messages, newMsg);
    assert |r| == |multiset(r)|;
    assert |Upsert(messages, newMsg)| == |multiset(Upsert(messages, newMsg))|;
  }

  /** Every message of the input other than the one `newMsg` replaced is in the result. */
  lemma UpsertKeepsMessages(messages: seq<SessionMessageDTO>, newMsg: SessionMessageDTO, j: nat)
    requires j < |messages| && j != FindIndex(messages, newMsg.id)
    ensures messages[j] in UpsertAndSort(messages, newMsg)
  {
    var u := Upsert(messages, newMsg);
    assert u[j] == messages[j];
    assert messages[j] in multiset(u);
  }

  ghost predicate DistinctIds(messages: seq<SessionMessageDTO>) {
    forall i, j :: 0 <= i < j < |messages| ==> messages[i].id != messages[j].id
  }

  /** With distinct ids in the input, `newMsg` is the only message of the merged list that
      carries its id. */
  lemma OnlyNewMessageHasItsId(messages: seq<SessionMessageDTO>, newMsg: SessionMessageDTO, k: nat)
    requires DistinctIds(messages)
    requires k < |Upsert(messages, newMsg)| && Upsert(messages, newMsg)[k].id == newMsg.id
    ensures Upsert(messages, newMsg)[k] == newMsg
  {
  }

  /** With distinct ids, merging the same message a second time changes nothing. */
  lemma UpsertAndSortIdempotent(messages: seq<SessionMessageDTO>, newMsg: SessionMessageDTO)
    requires DistinctIds(messages)
    ensures UpsertAndSort(UpsertAndSort(messages, newMsg), newMsg) == UpsertAndSort(messages, newMsg)
  {
    var u := Upsert(messages, newMsg);
    var r := UpsertAndSort(messages, newMsg);
    NewMessageIsMerged(messages, newMsg);
    var k := FindIndex(r, newMsg.id);
    assert r[k] in multiset(u);
    var m :| 0 <= m < |u| && u[m] == r[k];
    OnlyNewMessageHasItsId(messages, newMsg, m);
    assert Upsert(r, newMsg) == r;
    SortBySortedIsIdentity(r, CreatedAt);
  }

  /** The merged message is always in the result. */
  lemma NewMessageIsMerged(messages: seq<SessionMessageDTO>, newMsg: SessionMessageDTO)
    ensures newMsg in UpsertAndSort(messages, newMsg)
  {
    var u := Upsert(messages, newMsg);
    var idx := FindIndex(messages, newMsg.id);
    var at := if idx >= 0 then idx else |messages|;
    assert u[at] == newMsg;
    assert newMsg in multiset(u);
  }
}
