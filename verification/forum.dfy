/**
  The forum screen (app/modal.tsx): the screen copies the stored messages
  once, posts a new message both to the store (at the end) and to its own
  copy (at the front), and counts likes in its own copy only.

  The id (`Date.now()`) and the localised timestamp are parameters.
 */
module Forum {
  import opened Common
  import opened Types
  import S = Store

  /** The screen's own state: its copy of the messages and the text being typed. */
  datatype Board = Board(messages: seq<ForumMessage>, text: string)

  datatype Alert = EmptyMessage

  /** The board as first rendered: a copy of the stored messages, nothing typed. */
  function Opened(s: S.Store): (b: Board)
    ensures b.messages == s.forumMessages && b.text == ""
  {
    Board(s.forumMessages, "")
  }

  /** `userProfile?.name || 'Anonymous'`: an absent profile or an empty name posts anonymously. */
  function AuthorOf(profile: Option<UserProfile>): (a: string)
    ensures profile.Some? && profile.value.name != "" ==> a == profile.value.name
    ensures profile.None? || profile.value.name == "" ==> a == "Anonymous"
  {
    if profile.Some? && profile.value.name != "" then profile.value.name else "Anonymous"
  }

  /** `handlePostMessage`. */
  function Post(s: S.Store, b: Board, id: string, timestamp: string): (r: Result<(S.Store, Board), Alert>)
    ensures r.Failure? <==> Blank(b.text)
    ensures r.Failure? ==> r.error == EmptyMessage
    ensures r.Success? ==>
      var m := ForumMessage(id, AuthorOf(s.userProfile), b.text, timestamp, 0);
      && r.value.0 == S.AddForumMessage(s, m)
      && r.value.1 == Board([m] + b.messages, "")
  {
    if Blank(b.text) then Failure(EmptyMessage)
    else
      var m := ForumMessage(id, AuthorOf(s.userProfile), b.text, timestamp, 0);
      Success((S.AddForumMessage(s, m), Board([m] + b.messages, "")))
  }

  /** `handleLikeMessage(id)`: one more like on the messages with that id, in the screen's copy. */
  function Like(b: Board, id: string): (r: Board)
    ensures |r.messages| == |b.messages| && r.text == b.text
    ensures forall i :: 0 <= i < |b.messages| ==>
      r.messages[i] == if b.messages[i].id == id then b.messages[i].(likes := b.messages[i].likes + 1)
                       else b.messages[i]
  {
    var ms := b.messages;
    b.(messages := seq(|ms|, i requires 0 <= i < |ms| => if ms[i].id == id then ms[i].(likes := ms[i].likes + 1) else ms[i]))
  }

  /** The board holds the same messages as the store (in any order). */
  predicate SameMessages(s: S.Store, b: Board) {
    multiset(b.messages) == multiset(s.forumMessages)
  }

  /** Posting keeps the board and the store holding the same messages, although one prepends
      and the other appends. */
  lemma PostKeepsSameMessages(s: S.Store, b: Board, id: string, timestamp: string)
    requires SameMessages(s, b) && !Blank(b.text)
    ensures var r := Post(s, b, id, timestamp).value;
      SameMessages(r.0, r.1)
  {
  }

  /** A new post appears first on the board and last in the store, with no likes. */
  lemma PostOrder(s: S.Store, b: Board, id: string, timestamp: string)
    requires !Blank(b.text)
    ensures var r := Post(s, b, id, timestamp).value;
      && r.1.messages[0] == r.0.forumMessages[|r.0.forumMessages| - 1]
      && r.1.messages[0].likes == 0 && r.1.messages[0].content == b.text
  {
  }

  /** Likes are never stored: liking a shown message makes the board disagree with the store. */
  lemma LikeNotStored(s: S.Store, id: string)
    requires exists i :: 0 <= i < |s.forumMessages| && s.forumMessages[i].id == id
    ensures Like(Opened(s), id).messages != s.forumMessages
  {
    var i :| 0 <= i < |s.forumMessages| && s.forumMessages[i].id == id;
    assert Like(Opened(s), id).messages[i].likes == s.forumMessages[i].likes + 1;
  }

  /** The likes shown on the board grow by one per message carrying the id. */
  lemma {:induction false} LikeCountsOnce(ms: seq<ForumMessage>, text: string, id: string)
    ensures TotalLikes(Like(Board(ms, text), id).messages) == TotalLikes(ms) + Count(ms, (m: ForumMessage) => m.id == id)
    decreases |ms|
  {
    if |ms| > 0 {
      var liked := Like(Board(ms, text), id).messages;
      LikeCountsOnce(ms[1..], text, id);
      assert liked[1..] == Like(Board(ms[1..], text), id).messages;
      assert ms == [ms[0]] + ms[1..];
    }
  }

  function TotalLikes(ms: seq<ForumMessage>): int
    decreases |ms|
  {
    if |ms| == 0 then 0 else ms[0].likes + TotalLikes(ms[1..])
  }
}
