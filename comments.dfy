/**
 * The discussion under a case: posting a comment and toggling an emoji reaction. A comment's `reactions`
 * map each emoji to the uids that reacted with it; the toggle adds or removes the reacting user and never
 * leaves an empty list behind. `comments` is the list the page's snapshot listener holds.
 */
module Comments {
  import opened Wrappers
  import opened Store
  import opened Schema
  import opened Seqs
  import opened Text

  // ---------------------------------------------------------------------------------------
  // The reaction toggle
  // ---------------------------------------------------------------------------------------

  type Reactions = map<string, seq<string>>

  /** `currentReactions[emoji] || []`. */
  function UsersOf(reactions: Reactions, emoji: string): seq<string> {
    if emoji in reactions then reactions[emoji] else []
  }

  function Other(uid: string): string -> bool {
    (id: string) => id != uid
  }

  /** The emoji's new user list: without `uid` if it reacted, else with `uid` appended. */
  function ToggledList(userList: seq<string>, uid: string): (r: seq<string>)
    ensures uid in r <==> uid !in userList
    ensures forall v :: v != uid ==> (v in r <==> v in userList)
    ensures uid !in userList ==> r == userList + [uid]
  {
    if uid in userList then Filter(userList, Other(uid)) else userList + [uid]
  }

  /** `updatedReactions`: a copy of the map with the emoji's entry replaced by the new list, or deleted when it
    * is empty. */
  function Toggle(reactions: Reactions, emoji: string, uid: string): (r: Reactions)
    ensures emoji in r ==> r[emoji] == ToggledList(UsersOf(reactions, emoji), uid) && r[emoji] != []
    ensures emoji !in r <==> ToggledList(UsersOf(reactions, emoji), uid) == []
    ensures forall e :: e != emoji ==> (e in r <==> e in reactions) && (e in r ==> r[e] == reactions[e])
  {
    var newUserList := ToggledList(UsersOf(reactions, emoji), uid);
    if |newUserList| > 0 then reactions[emoji := newUserList] else reactions - {emoji}
  }

  /** No emoji of the map has an empty list. */
  predicate NoEmptyLists(reactions: Reactions) {
    forall e :: e in reactions ==> reactions[e] != []
  }

  /** The toggle flips exactly the reacting user's membership for that emoji, and keeps the map free of empty
    * lists. */
  lemma ToggleFlips(reactions: Reactions, emoji: string, uid: string)
    ensures uid in UsersOf(Toggle(reactions, emoji, uid), emoji) <==> uid !in UsersOf(reactions, emoji)
    ensures forall v :: v != uid ==> (v in UsersOf(Toggle(reactions, emoji, uid), emoji) <==> v in UsersOf(reactions, emoji))
    ensures NoEmptyLists(reactions) ==> NoEmptyLists(Toggle(reactions, emoji, uid))
  {
  }

  /** Appending a user that was not there and removing it again gives the list back. */
  lemma ToggledListTwice(list: seq<string>, uid: string)
    requires uid !in list
    ensures ToggledList(ToggledList(list, uid), uid) == list
  {
    FilterAppend(list, [uid], Other(uid));
    FilterAll(list, Other(uid));
    assert Filter([uid], Other(uid)) == [];
  }

  /** Reacting and then un-reacting restores the map, for a user that had not reacted with that emoji. */
  lemma ToggleTwice(reactions: Reactions, emoji: string, uid: string)
    requires uid !in UsersOf(reactions, emoji)
    requires emoji in reactions ==> reactions[emoji] != []
    ensures Toggle(Toggle(reactions, emoji, uid), emoji, uid) == reactions
  {
    var list := UsersOf(reactions, emoji);
    var once := Toggle(reactions, emoji, uid);
    assert once == reactions[emoji := list + [uid]];
    ToggledListTwice(list, uid);
    assert UsersOf(once, emoji) == list + [uid];
    var twice := Toggle(once, emoji, uid);
    if list == [] {
      assert twice == once - {emoji};
      assert emoji !in reactions;
      assert once - {emoji} == reactions;
    } else {
      assert twice == once[emoji := list];
      assert reactions[emoji] == list;
    }
  }

  // ---------------------------------------------------------------------------------------
  // The handlers
  // ---------------------------------------------------------------------------------------

  /** `comments.find(c => c.id === commentId)`. */
  function FindComment(comments: seq<Comment>, commentId: string): (r: Option<Comment>)
    ensures r.Some? ==> r.value in comments && r.value.id == commentId
    ensures r.None? ==> forall k :: 0 <= k < |comments| ==> comments[k].id != commentId
  {
    if comments == [] then None
    else if comments[0].id == commentId then Some(comments[0])
    else FindComment(comments[1..], commentId)
  }

  /** The stored form of a reactions map: each emoji to an array of uid strings. */
  function ReactionsValue(reactions: Reactions): Value {
    Obj(map e | e in reactions :: Arr(seq(|reactions[e]|, k requires 0 <= k < |reactions[e]| => Str(reactions[e][k]))))
  }

  /** `updateDoc(commentRef, { reactions })`: only the `reactions` field of an existing comment is written. */
  function ReactionWrite(commentId: string, reactions: Reactions): Write {
    SetDoc("comments", commentId, map["reactions" := Op(Put(ReactionsValue(reactions)))], true)
  }

  /** `handleReaction`. `writeFails` says that `updateDoc` throws (its error is only logged). */
  method HandleReaction(db: Db, comments: seq<Comment>, user: Option<string>, commentId: string, emoji: string,
                        writeFails: bool)
    returns (db': Db)
    ensures user.None? || commentId == "" || FindComment(comments, commentId).None? ==> db' == db
    ensures user.Some? && commentId != "" && FindComment(comments, commentId).Some? ==>
      var reactions := Toggle(FindComment(comments, commentId).value.reactions, emoji, user.value);
      db' == if writeFails || Get(db, "comments", commentId).None? then db
             else Commit(db, [ReactionWrite(commentId, reactions)])
  {
    if user.None? || commentId == "" {
      return db;
    }
    var comment := FindComment(comments, commentId);
    if comment.None? {
      return db;
    }
    var currentReactions := comment.value.reactions;
    var userList := UsersOf(currentReactions, emoji);
    var newUserList := ToggledList(userList, user.value);
    var updatedReactions := currentReactions;
    if |newUserList| > 0 {
      updatedReactions := updatedReactions[emoji := newUserList];
    } else {
      updatedReactions := updatedReactions - {emoji};
    }
    if writeFails || Get(db, "comments", commentId).None? {
      return db;
    }
    db' := CommitBatch(db, [ReactionWrite(commentId, updatedReactions)]);
  }

  /** A reaction write changes the `reactions` field of that comment and nothing else in the store. */
  lemma ReactionWriteFrame(db: Db, commentId: string, reactions: Reactions, c: string, i: string)
    requires Get(db, "comments", commentId).Some?
    ensures Get(Commit(db, [ReactionWrite(commentId, reactions)]), "comments", commentId).Some?
    ensures var after := GetOrEmpty(Commit(db, [ReactionWrite(commentId, reactions)]), "comments", commentId);
      && after.Keys == Get(db, "comments", commentId).value.Keys + {"reactions"}
      && after["reactions"] == ReactionsValue(reactions)
      && forall k :: k in after && k != "reactions" ==> after[k] == Get(db, "comments", commentId).value[k]
    ensures (c, i) != ("comments", commentId) ==> Get(Commit(db, [ReactionWrite(commentId, reactions)]), c, i) == Get(db, c, i)
  {
    CommitOne(db, ReactionWrite(commentId, reactions));
  }

  /** The document `addDoc` creates for a new comment. */
  function CommentDoc(caseId: string, uid: string, employeeId: string, content: string, now: int): Doc {
    map["caseId" := Str(caseId), "userId" := Str(uid), "userEmail" := Str(employeeId),
        "content" := Str(Trim(content)), "createdAt" := Time(now), "reactions" := Obj(map[])]
  }

  /** `handleSubmit`. `employeeId` is the signed-in user's profile employee id (`None` without a profile),
    * `newId` the id `addDoc` picks, `writeFails` whether it throws. Returns the store and the text box. */
  method HandleSubmit(db: Db, caseId: string, newComment: string, user: Option<string>, employeeId: Option<string>,
                      newId: string, now: int, writeFails: bool)
    returns (db': Db, box: string)
    ensures IsBlank(newComment) || user.None? || employeeId.None? ==> db' == db && box == newComment
    ensures !IsBlank(newComment) && user.Some? && employeeId.Some? && writeFails ==> db' == db && box == newComment
    ensures !IsBlank(newComment) && user.Some? && employeeId.Some? && !writeFails ==>
      && db' == Commit(db, [SetDoc("comments", newId, PutAll(CommentDoc(caseId, user.value, employeeId.value, newComment, now)), false)])
      && box == ""
  {
    if IsBlank(newComment) || user.None? || employeeId.None? {
      return db, newComment;
    }
    if writeFails {
      return db, newComment;
    }
    var d := CommentDoc(caseId, user.value, employeeId.value, newComment, now);
    db' := CommitBatch(db, [SetDoc("comments", newId, PutAll(d), false)]);
    box := "";
  }

  /** A posted comment stores the trimmed, non-blank text and starts without reactions. */
  lemma PostedComment(db: Db, caseId: string, newComment: string, uid: string, employeeId: string, newId: string,
                      now: int)
    requires !IsBlank(newComment)
    ensures var d := Get(Commit(db, [SetDoc("comments", newId, PutAll(CommentDoc(caseId, uid, employeeId, newComment, now)), false)]),
                         "comments", newId);
      && d.Some?
      && StrField(d.value, "content") == Some(Trim(newComment)) && Trim(newComment) != []
      && !IsSpace(Trim(newComment)[0]) && !IsSpace(Trim(newComment)[|Trim(newComment)| - 1])
      && Field(d.value, "reactions") == Some(Obj(map[]))
      && StrField(d.value, "caseId") == Some(caseId) && StrField(d.value, "userId") == Some(uid)
  {
    var d := CommentDoc(caseId, uid, employeeId, newComment, now);
    BlankIffTrimEmpty(newComment);
    CommentDocText(caseId, uid, employeeId, newComment, now);
    CommentDocAuthor(caseId, uid, employeeId, newComment, now);
    CommitOne(db, SetDoc("comments", newId, PutAll(d), false));
    PutAllStores(d);
  }

  lemma CommentDocText(caseId: string, uid: string, employeeId: string, content: string, now: int)
    ensures var d := CommentDoc(caseId, uid, employeeId, content, now);
      StrField(d, "content") == Some(Trim(content)) && Field(d, "reactions") == Some(Obj(map[]))
  {
  }

  lemma CommentDocAuthor(caseId: string, uid: string, employeeId: string, content: string, now: int)
    ensures var d := CommentDoc(caseId, uid, employeeId, content, now);
      StrField(d, "caseId") == Some(caseId) && StrField(d, "userId") == Some(uid)
  {
  }
}
