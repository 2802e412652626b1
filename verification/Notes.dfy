/**
 * Notes, replies, likes and names of the reference relying party
 * (apps/reference-rp/worker/reference-rp-state.ts, `#commitSessionOperation` and `#toNoteView`): one transaction
 * per operation of a session, over all runs. Lower-casing a name is a parameter; random identifiers do not repeat.
 */
module Notes {
  import opened Common

  type Subject = string
  type NoteId = string
  type ReplyId = string

  datatype Visibility = Public | Private

  datatype Draft = Draft(title: string, body: string, visibility: Visibility)

  datatype Note = Note(author: Subject, draft: Draft, createdAt: nat, updatedAt: nat, version: nat, proofHash: string)

  datatype Reply = Reply(noteId: NoteId, author: Subject, body: string, createdAt: nat)

  datatype Like = Like(noteId: NoteId, subject: Subject)

  datatype Profile = Profile(friendlyName: string, nameKey: string, updatedAt: nat)

  datatype Tables = Tables(
    notes: map<NoteId, Note>,
    replies: map<ReplyId, Reply>,
    likes: set<Like>,
    profiles: map<Subject, Profile>)

  datatype Operation =
    | SetName(friendlyName: string)
    | CreateNote(noteId: NoteId, draft: Draft)
    | EditNote(noteId: NoteId, expectedVersion: nat, draft: Draft)
    | DeleteNote(noteId: NoteId, expectedVersion: nat)
    | CreateReply(noteId: NoteId, replyId: ReplyId, body: string)
    | DeleteReply(noteId: NoteId, replyId: ReplyId)
    | LikeNote(noteId: NoteId)
    | UnlikeNote(noteId: NoteId)

  datatype Error =
    | SessionInvalid | NameTaken | NotFound | AuthorMismatch | VersionConflict | OperationNotAllowed | IdTaken

  /** `resultingVersion` of the receipt. */
  datatype Outcome = Refused(error: Error) | Accepted(tables: Tables, resultingVersion: Option<nat>)

  datatype Request = Request(subject: Subject, proofHash: string, operation: Operation, now: nat, sessionPresent: bool)

  function SetProfile(t: Tables, subject: Subject, name: string, nameKey: string, now: nat): Outcome {
    if exists other :: other in t.profiles && other != subject && t.profiles[other].nameKey == nameKey then
      Refused(NameTaken)
    else Accepted(t.(profiles := t.profiles[subject := Profile(name, nameKey, now)]), None)
  }

  /** `#requireOwnedNote` and the version check. */
  function OwnedNoteError(t: Tables, id: NoteId, subject: Subject, expectedVersion: nat): Option<Error> {
    if id !in t.notes then Some(NotFound)
    else if t.notes[id].author != subject then Some(AuthorMismatch)
    else if t.notes[id].version != expectedVersion then Some(VersionConflict)
    else None
  }

  /** `#requireVisibleNote` */
  predicate Visible(t: Tables, id: NoteId, subject: Subject) {
    id in t.notes && (t.notes[id].draft.visibility == Private ==> t.notes[id].author == subject)
  }

  function WithoutNote(t: Tables, id: NoteId): Tables {
    Tables(t.notes - {id},
           map reply | reply in t.replies && t.replies[reply].noteId != id :: t.replies[reply],
           (set like | like in t.likes && like.noteId != id),
           t.profiles)
  }

  function Edited(note: Note, draft: Draft, now: nat, proofHash: string): Note {
    note.(draft := draft, updatedAt := now, version := note.version + 1, proofHash := proofHash)
  }

  /** The transaction of `#commitSessionOperation`; a refusal changes nothing. */
  function Commit(lower: string -> string, t: Tables, r: Request): Outcome {
    if !r.sessionPresent then Refused(SessionInvalid)
    else
      match r.operation
      case SetName(name) => SetProfile(t, r.subject, name, lower(name), r.now)
      case CreateNote(id, draft) =>
        if id in t.notes then Refused(IdTaken)
        else Accepted(t.(notes := t.notes[id := Note(r.subject, draft, r.now, r.now, 1, r.proofHash)]), Some(1))
      case EditNote(id, expectedVersion, draft) =>
        (match OwnedNoteError(t, id, r.subject, expectedVersion)
         case Some(error) => Refused(error)
         case None =>
           Accepted(t.(notes := t.notes[id := Edited(t.notes[id], draft, r.now, r.proofHash)]),
                    Some(t.notes[id].version + 1)))
      case DeleteNote(id, expectedVersion) =>
        (match OwnedNoteError(t, id, r.subject, expectedVersion)
         case Some(error) => Refused(error)
         case None => Accepted(WithoutNote(t, id), None))
      case CreateReply(id, reply, body) =>
        if !Visible(t, id, r.subject) then Refused(NotFound)
        else if reply in t.replies then Refused(IdTaken)
        else Accepted(t.(replies := t.replies[reply := Reply(id, r.subject, body, r.now)]), Some(t.notes[id].version))
      case DeleteReply(id, reply) =>
        if !Visible(t, id, r.subject) || reply !in t.replies || t.replies[reply].noteId != id then Refused(NotFound)
        else if t.replies[reply].author != r.subject && t.notes[id].author != r.subject then Refused(AuthorMismatch)
        else Accepted(t.(replies := t.replies - {reply}), Some(t.notes[id].version))
      case LikeNote(id) =>
        if id !in t.notes then Refused(NotFound)
        else if t.notes[id].draft.visibility != Public then Refused(OperationNotAllowed)
        else Accepted(t.(likes := t.likes + {Like(id, r.subject)}), Some(t.notes[id].version))
      case UnlikeNote(id) =>
        if id !in t.notes then Refused(NotFound)
        else if t.notes[id].draft.visibility != Public then Refused(OperationNotAllowed)
        else Accepted(t.(likes := t.likes - {Like(id, r.subject)}), Some(t.notes[id].version))
  }

  // ----- Views

  datatype NoteView = NoteView(note: Note, likeCount: nat, likedByViewer: bool, replies: set<ReplyId>)

  /** `#getNote`; None when the viewer may not see the note. */
  function View(t: Tables, id: NoteId, viewer: Option<Subject>): Option<NoteView> {
    if id !in t.notes || (t.notes[id].draft.visibility == Private && viewer != Some(t.notes[id].author)) then None
    else
      Some(NoteView(t.notes[id],
                    |set like | like in t.likes && like.noteId == id|,
                    viewer.Some? && Like(id, viewer.value) in t.likes,
                    set reply | reply in t.replies && t.replies[reply].noteId == id))
  }

  // ----- Runs

  datatype World = World(
    tables: Tables,
    // history: the accepted requests in order, and the identifiers ever in use
    log: seq<Request>,
    noteIds: set<NoteId>,
    replyIds: set<ReplyId>)

  function Start(seeds: map<NoteId, Note>): World {
    World(Tables(seeds, map[], {}, map[]), [], seeds.Keys, {})
  }

  /** A generated identifier is new. */
  predicate Fresh(w: World, operation: Operation) {
    && (operation.CreateNote? ==> operation.noteId !in w.noteIds)
    && (operation.CreateReply? ==> operation.replyId !in w.replyIds)
  }

  function Apply(lower: string -> string, w: World, r: Request): World {
    if !Fresh(w, r.operation) then w
    else
      match Commit(lower, w.tables, r)
      case Refused(_) => w
      case Accepted(t, _) =>
        World(t, w.log + [r],
              if r.operation.CreateNote? then w.noteIds + {r.operation.noteId} else w.noteIds,
              if r.operation.CreateReply? then w.replyIds + {r.operation.replyId} else w.replyIds)
  }

  function Run(lower: string -> string, w: World, requests: seq<Request>): World
    decreases |requests|
  {
    if requests == [] then w else Run(lower, Apply(lower, w, requests[0]), requests[1..])
  }

  // ----- What the log says

  function Edits(log: seq<Request>, id: NoteId): nat {
    if log == [] then 0
    else
      var operation, before := log[|log| - 1].operation, Edits(log[..|log| - 1], id);
      if operation.EditNote? && operation.noteId == id then before + 1 else before
  }

  /** The last like or unlike of the subject on the note is a like. */
  predicate Liked(log: seq<Request>, id: NoteId, subject: Subject) {
    if log == [] then false
    else
      var last := log[|log| - 1];
      if last.operation.LikeNote? && last.operation.noteId == id && last.subject == subject then true
      else if last.operation.UnlikeNote? && last.operation.noteId == id && last.subject == subject then false
      else Liked(log[..|log| - 1], id, subject)
  }

  predicate Changes(operation: Operation, id: NoteId) {
    (operation.EditNote? || operation.DeleteNote?) && operation.noteId == id
  }

  predicate Mentions(operation: Operation, id: NoteId) {
    !operation.SetName? && operation.noteId == id
  }

  /** What may stand behind an accepted request in the log. */
  predicate MayFollow(earlier: Operation, later: Operation) {
    && (later.CreateNote? ==> !Mentions(earlier, later.noteId))
    && (earlier.DeleteNote? ==> !Mentions(later, earlier.noteId))
    && (earlier.EditNote? && Changes(later, earlier.noteId) ==> earlier.expectedVersion < later.expectedVersion)
  }

  // ----- Invariant

  ghost predicate VersionsOk(w: World) {
    && (forall id :: id in w.tables.notes ==> id in w.noteIds && w.tables.notes[id].version == 1 + Edits(w.log, id))
    && (forall id :: id !in w.noteIds ==> Edits(w.log, id) == 0)
  }

  ghost predicate HistoryOk(w: World) {
    && (forall r :: r in w.log && !r.operation.SetName? ==> r.operation.noteId in w.noteIds)
    && (forall r :: r in w.log && r.operation.DeleteNote? ==> r.operation.noteId !in w.tables.notes)
    && (forall r :: r in w.log && r.operation.EditNote? && r.operation.noteId in w.tables.notes ==>
          r.operation.expectedVersion < w.tables.notes[r.operation.noteId].version)
  }

  ghost predicate NotesOk(w: World) {
    VersionsOk(w) && HistoryOk(w)
  }

  ghost predicate LogOk(log: seq<Request>) {
    forall i, j :: 0 <= i < j < |log| ==> MayFollow(log[i].operation, log[j].operation)
  }

  ghost predicate LikesOk(w: World) {
    && (forall like :: like in w.tables.likes ==> like.noteId in w.tables.notes)
    && (forall id, subject :: id in w.tables.notes ==>
          (Like(id, subject) in w.tables.likes <==> Liked(w.log, id, subject)))
    && (forall id, subject :: id !in w.noteIds ==> !Liked(w.log, id, subject))
  }

  ghost predicate RepliesOk(w: World) {
    forall reply :: reply in w.tables.replies ==>
      reply in w.replyIds && w.tables.replies[reply].noteId in w.tables.notes
  }

  ghost predicate ProfilesOk(lower: string -> string, w: World) {
    && (forall s :: s in w.tables.profiles ==> w.tables.profiles[s].nameKey == lower(w.tables.profiles[s].friendlyName))
    && (forall s, s' :: s in w.tables.profiles && s' in w.tables.profiles && s != s' ==>
          w.tables.profiles[s].nameKey != w.tables.profiles[s'].nameKey)
  }

  ghost predicate Inv(lower: string -> string, w: World) {
    NotesOk(w) && LogOk(w.log) && LikesOk(w) && RepliesOk(w) && ProfilesOk(lower, w)
  }

  /** Authors, creation times and replies never change, versions only grow, and what is deleted stays deleted. */
  predicate Kept(w: World, w': World) {
    && w.noteIds <= w'.noteIds && w.replyIds <= w'.replyIds && w.log <= w'.log
    && (forall id :: id in w.noteIds && id !in w.tables.notes ==> id !in w'.tables.notes)
    && (forall reply :: reply in w.replyIds && reply !in w.tables.replies ==> reply !in w'.tables.replies)
    && (forall id :: id in w.tables.notes && id in w'.tables.notes ==>
          w'.tables.notes[id].author == w.tables.notes[id].author
            && w'.tables.notes[id].createdAt == w.tables.notes[id].createdAt
          && w.tables.notes[id].version <= w'.tables.notes[id].version)
    && (forall reply :: reply in w.tables.replies && reply in w'.tables.replies ==>
          w'.tables.replies[reply] == w.tables.replies[reply])
  }

  lemma LogSnoc(log: seq<Request>, r: Request)
    ensures forall id ::
              Edits(log + [r], id)
              == Edits(log, id) + if r.operation.EditNote? && r.operation.noteId == id then 1 else 0
    ensures forall id, s :: Liked(log + [r], id, s) <==>
              if r.operation.LikeNote? && r.operation.noteId == id && r.subject == s then true
              else if r.operation.UnlikeNote? && r.operation.noteId == id && r.subject == s then false
              else Liked(log, id, s)
  {
    assert (log + [r])[..|log|] == log;
  }

  predicate Succeeds(lower: string -> string, w: World, r: Request) {
    Fresh(w, r.operation) && Commit(lower, w.tables, r).Accepted?
  }

  lemma VersionsKept(lower: string -> string, w: World, r: Request)
    requires VersionsOk(w) && Succeeds(lower, w, r)
    ensures VersionsOk(Apply(lower, w, r))
  {
    LogSnoc(w.log, r);
  }

  lemma HistoryKept(lower: string -> string, w: World, r: Request)
    requires NotesOk(w) && Succeeds(lower, w, r)
    ensures HistoryOk(Apply(lower, w, r))
  {
    var w' := Apply(lower, w, r);
    forall e | e in w'.log
      ensures e == r || e in w.log
    {
    }
  }

  lemma LogKept(lower: string -> string, w: World, r: Request)
    requires NotesOk(w) && LogOk(w.log) && Succeeds(lower, w, r)
    ensures LogOk(w.log + [r])
  {
    var longer := w.log + [r];
    forall i, j | 0 <= i < j < |longer|
      ensures MayFollow(longer[i].operation, longer[j].operation)
    {
      assert longer[i] in w.log;
    }
  }

  lemma LikesKept(lower: string -> string, w: World, r: Request)
    requires NotesOk(w) && LikesOk(w) && Succeeds(lower, w, r)
    ensures LikesOk(Apply(lower, w, r))
  {
    var w' := Apply(lower, w, r);
    forall id, subject
      ensures id in w'.tables.notes ==> (Like(id, subject) in w'.tables.likes <==> Liked(w'.log, id, subject))
      ensures id !in w'.noteIds ==> !Liked(w'.log, id, subject)
    {
      LogSnoc(w.log, r);
      if id in w'.tables.notes {
        LikeKept(lower, w, r, id, subject);
      }
    }
  }

  /** A like changes only by its subject's own operation, or with its note. */
  lemma LikeKept(lower: string -> string, w: World, r: Request, id: NoteId, subject: Subject)
    requires LikesOk(w) && Succeeds(lower, w, r) && id in Apply(lower, w, r).tables.notes
    ensures Like(id, subject) in Apply(lower, w, r).tables.likes
            <==> if r.operation.LikeNote? && r.operation.noteId == id && r.subject == subject then true
                 else if r.operation.UnlikeNote? && r.operation.noteId == id && r.subject == subject then false
                 else Like(id, subject) in w.tables.likes
  {
  }

  lemma RepliesKept(lower: string -> string, w: World, r: Request)
    requires RepliesOk(w) && Succeeds(lower, w, r)
    ensures RepliesOk(Apply(lower, w, r))
  {
  }

  lemma ProfilesKept(lower: string -> string, w: World, r: Request)
    requires ProfilesOk(lower, w) && Succeeds(lower, w, r)
    ensures ProfilesOk(lower, Apply(lower, w, r))
  {
    if !r.operation.SetName? {
      assert Apply(lower, w, r).tables.profiles == w.tables.profiles;
    }
  }

  lemma RowsKept(lower: string -> string, w: World, r: Request)
    ensures Kept(w, Apply(lower, w, r))
  {
  }

  lemma KeptTransitive(a: World, b: World, c: World)
    requires Kept(a, b) && Kept(b, c) && a.tables.notes.Keys <= a.noteIds && a.tables.replies.Keys <= a.replyIds
    ensures Kept(a, c)
  {
  }

  lemma ApplyKeeps(lower: string -> string, w: World, r: Request)
    requires Inv(lower, w)
    ensures Inv(lower, Apply(lower, w, r))
  {
    if Succeeds(lower, w, r) {
      VersionsKept(lower, w, r);
      HistoryKept(lower, w, r);
      LogKept(lower, w, r);
      LikesKept(lower, w, r);
      RepliesKept(lower, w, r);
      ProfilesKept(lower, w, r);
    }
  }

  lemma {:induction false} RunKeeps(lower: string -> string, w: World, requests: seq<Request>)
    requires Inv(lower, w)
    ensures Inv(lower, Run(lower, w, requests)) && Kept(w, Run(lower, w, requests))
    decreases |requests|
  {
    if requests != [] {
      ApplyKeeps(lower, w, requests[0]);
      RowsKept(lower, w, requests[0]);
      RunKeeps(lower, Apply(lower, w, requests[0]), requests[1..]);
      KeptTransitive(w, Apply(lower, w, requests[0]), Run(lower, w, requests));
    }
  }

  // ----- Theorems

  predicate SeedsOk(seeds: map<NoteId, Note>) {
    forall id :: id in seeds ==> seeds[id].version == 1
  }

  lemma {:induction false} ReachInv(lower: string -> string, seeds: map<NoteId, Note>, requests: seq<Request>)
    requires SeedsOk(seeds)
    ensures Inv(lower, Run(lower, Start(seeds), requests))
  {
    RunKeeps(lower, Start(seeds), requests);
  }

  // ----- Every row, entry by entry

  function Lookup<K, V>(table: map<K, V>, key: K): Option<V> {
    if key in table then Some(table[key]) else None
  }

  /** What the log makes of a note: its creation, or else a seed, then the edits, until it is deleted. */
  function NoteIn(seeds: map<NoteId, Note>, log: seq<Request>, id: NoteId): Option<Note> {
    if log == [] then Lookup(seeds, id)
    else
      var last, before := log[|log| - 1], NoteIn(seeds, log[..|log| - 1], id);
      match last.operation
      case CreateNote(noteId, draft) =>
        if noteId == id then Some(Note(last.subject, draft, last.now, last.now, 1, last.proofHash)) else before
      case EditNote(noteId, _, draft) =>
        if noteId == id && before.Some? then
          Some(Note(before.value.author, draft, before.value.createdAt, last.now, before.value.version + 1,
                    last.proofHash))
        else before
      case DeleteNote(noteId, _) => if noteId == id then None else before
      case _ => before
  }

  /** What the log makes of a reply: its creation, until it or its note is deleted. */
  function ReplyIn(log: seq<Request>, id: ReplyId): Option<Reply> {
    if log == [] then None
    else
      var last, before := log[|log| - 1], ReplyIn(log[..|log| - 1], id);
      match last.operation
      case CreateReply(noteId, replyId, body) =>
        if replyId == id then Some(Reply(noteId, last.subject, body, last.now)) else before
      case DeleteReply(_, replyId) => if replyId == id then None else before
      case DeleteNote(noteId, _) => if before.Some? && before.value.noteId == noteId then None else before
      case _ => before
  }

  /** The last name that the subject set. */
  function ProfileIn(lower: string -> string, log: seq<Request>, s: Subject): Option<Profile> {
    if log == [] then None
    else
      var last := log[|log| - 1];
      if last.operation.SetName? && last.subject == s
      then Some(Profile(last.operation.friendlyName, lower(last.operation.friendlyName), last.now))
      else ProfileIn(lower, log[..|log| - 1], s)
  }

  ghost predicate Recorded(lower: string -> string, seeds: map<NoteId, Note>, w: World) {
    && (forall id :: Lookup(w.tables.notes, id) == NoteIn(seeds, w.log, id))
    && (forall id :: Lookup(w.tables.replies, id) == ReplyIn(w.log, id))
    && (forall s :: Lookup(w.tables.profiles, s) == ProfileIn(lower, w.log, s))
  }

  lemma NoteRecorded(lower: string -> string, seeds: map<NoteId, Note>, w: World, r: Request, id: NoteId)
    requires Lookup(w.tables.notes, id) == NoteIn(seeds, w.log, id) && Succeeds(lower, w, r)
    ensures Lookup(Apply(lower, w, r).tables.notes, id) == NoteIn(seeds, w.log + [r], id)
  {
    assert (w.log + [r])[..|w.log|] == w.log;
  }

  lemma ReplyRecorded(lower: string -> string, w: World, r: Request, id: ReplyId)
    requires Lookup(w.tables.replies, id) == ReplyIn(w.log, id) && Succeeds(lower, w, r)
    ensures Lookup(Apply(lower, w, r).tables.replies, id) == ReplyIn(w.log + [r], id)
  {
    assert (w.log + [r])[..|w.log|] == w.log;
  }

  lemma ProfileRecorded(lower: string -> string, w: World, r: Request, s: Subject)
    requires Lookup(w.tables.profiles, s) == ProfileIn(lower, w.log, s) && Succeeds(lower, w, r)
    ensures Lookup(Apply(lower, w, r).tables.profiles, s) == ProfileIn(lower, w.log + [r], s)
  {
    assert (w.log + [r])[..|w.log|] == w.log;
  }

  lemma ApplyRecorded(lower: string -> string, seeds: map<NoteId, Note>, w: World, r: Request)
    requires Recorded(lower, seeds, w)
    ensures Recorded(lower, seeds, Apply(lower, w, r))
  {
    if Succeeds(lower, w, r) {
      var w' := Apply(lower, w, r);
      forall id
        ensures Lookup(w'.tables.notes, id) == NoteIn(seeds, w'.log, id)
      {
        NoteRecorded(lower, seeds, w, r, id);
      }
      forall id
        ensures Lookup(w'.tables.replies, id) == ReplyIn(w'.log, id)
      {
        ReplyRecorded(lower, w, r, id);
      }
      forall s
        ensures Lookup(w'.tables.profiles, s) == ProfileIn(lower, w'.log, s)
      {
        ProfileRecorded(lower, w, r, s);
      }
    }
  }

  lemma {:induction false} RunRecorded(lower: string -> string, seeds: map<NoteId, Note>, w: World,
                                       requests: seq<Request>)
    requires Recorded(lower, seeds, w)
    ensures Recorded(lower, seeds, Run(lower, w, requests))
    decreases |requests|
  {
    if requests != [] {
      ApplyRecorded(lower, seeds, w, requests[0]);
      RunRecorded(lower, seeds, Apply(lower, w, requests[0]), requests[1..]);
    }
  }

  /**
   * Over all runs: replies and likes refer to existing notes, a note's version is 1 plus its accepted edits, names
   * that differ only in case belong to one subject, and every note, reply and profile is what the accepted requests
   * made of it: a note shows the draft, time and proof of its last edit under its first author, a reply its body, a
   * profile the name set last.
   */
  lemma {:induction false} StateFollowsLog(lower: string -> string, seeds: map<NoteId, Note>, requests: seq<Request>)
    requires SeedsOk(seeds)
    ensures var w := Run(lower, Start(seeds), requests);
            var t := w.tables;
            && (forall reply :: reply in t.replies ==> t.replies[reply].noteId in t.notes)
            && (forall like :: like in t.likes ==> like.noteId in t.notes)
            && (forall id :: id in t.notes ==> t.notes[id].version == 1 + Edits(w.log, id))
            && (forall s, s' :: s in t.profiles && s' in t.profiles && s != s' ==>
                  lower(t.profiles[s].friendlyName) != lower(t.profiles[s'].friendlyName))
            && Recorded(lower, seeds, w)
  {
    ReachInv(lower, seeds, requests);
    RunRecorded(lower, seeds, Start(seeds), requests);
    var t := Run(lower, Start(seeds), requests).tables;
    forall s, s' | s in t.profiles && s' in t.profiles && s != s'
      ensures lower(t.profiles[s].friendlyName) != lower(t.profiles[s'].friendlyName)
    {
      assert t.profiles[s].nameKey != t.profiles[s'].nameKey;
    }
  }

  // ----- Answers

  /** Someone else has the name, up to case. */
  predicate NameClaimed(lower: string -> string, t: Tables, r: Request) {
    r.operation.SetName?
    && exists other :: other in t.profiles && other != r.subject
                       && t.profiles[other].nameKey == lower(r.operation.friendlyName)
  }

  /** The note of the operation does not exist, or is hidden from a reply to it, or the reply does not exist. */
  predicate Missing(t: Tables, r: Request) {
    match r.operation
    case SetName(_) => false
    case CreateNote(_, _) => false
    case CreateReply(id, _, _) => Hidden(t, id, r.subject)
    case DeleteReply(id, reply) => Hidden(t, id, r.subject) || reply !in t.replies || t.replies[reply].noteId != id
    case operation => operation.noteId !in t.notes
  }

  predicate Hidden(t: Tables, id: NoteId, subject: Subject) {
    id !in t.notes || (t.notes[id].draft.visibility == Private && t.notes[id].author != subject)
  }

  predicate ForeignNote(t: Tables, r: Request) {
    (r.operation.EditNote? || r.operation.DeleteNote?)
    && r.operation.noteId in t.notes && t.notes[r.operation.noteId].author != r.subject
  }

  predicate ForeignReply(t: Tables, r: Request) {
    r.operation.DeleteReply? && !Missing(t, r)
    && r.subject !in {t.replies[r.operation.replyId].author, t.notes[r.operation.noteId].author}
  }

  predicate Stale(t: Tables, r: Request) {
    (r.operation.EditNote? || r.operation.DeleteNote?) && !Missing(t, r) && !ForeignNote(t, r)
    && t.notes[r.operation.noteId].version != r.operation.expectedVersion
  }

  predicate LikesPrivate(t: Tables, r: Request) {
    (r.operation.LikeNote? || r.operation.UnlikeNote?) && !Missing(t, r)
    && t.notes[r.operation.noteId].draft.visibility == Private
  }

  predicate TakesId(t: Tables, r: Request) {
    || (r.operation.CreateNote? && r.operation.noteId in t.notes)
    || (r.operation.CreateReply? && !Missing(t, r) && r.operation.replyId in t.replies)
  }

  /**
   * When a request is refused and with which error, and which version the receipt of an accepted one quotes: that of
   * the note as it then is.
   */
  lemma RefusedIff(lower: string -> string, t: Tables, r: Request)
    ensures var outcome := Commit(lower, t, r);
            && (outcome == Refused(SessionInvalid) <==> !r.sessionPresent)
            && (outcome == Refused(NameTaken) <==> r.sessionPresent && NameClaimed(lower, t, r))
            && (outcome == Refused(NotFound) <==> r.sessionPresent && Missing(t, r))
            && (outcome == Refused(AuthorMismatch) <==> r.sessionPresent && (ForeignNote(t, r) || ForeignReply(t, r)))
            && (outcome == Refused(VersionConflict) <==> r.sessionPresent && Stale(t, r))
            && (outcome == Refused(OperationNotAllowed) <==> r.sessionPresent && LikesPrivate(t, r))
            && (outcome == Refused(IdTaken) <==> r.sessionPresent && TakesId(t, r))
            && (outcome.Accepted? ==>
                  outcome.resultingVersion
                  == if r.operation.SetName? || r.operation.DeleteNote? then None
                     else Some(outcome.tables.notes[r.operation.noteId].version))
  {
    match r.operation
    case SetName(_) =>
    case CreateNote(_, _) =>
    case EditNote(_, _, _) =>
    case DeleteNote(_, _) =>
    case CreateReply(_, _, _) =>
    case DeleteReply(_, _) =>
    case LikeNote(_) =>
    case UnlikeNote(_) =>
  }

  /** An accepted request takes effect and is logged, provided that the identifier generated for it is new. */
  lemma AcceptedIsLogged(lower: string -> string, w: World, r: Request)
    requires r.operation.CreateNote? ==> r.operation.noteId !in w.noteIds
    requires r.operation.CreateReply? ==> r.operation.replyId !in w.replyIds
    ensures match Commit(lower, w.tables, r)
            case Refused(_) => Apply(lower, w, r) == w
            case Accepted(t, _) => Apply(lower, w, r).tables == t && Apply(lower, w, r).log == w.log + [r]
  {
  }

  /** A note is shown, as it is and with its replies, to everyone if it is public and to its author. */
  lemma ShownIff(t: Tables, id: NoteId, viewer: Option<Subject>)
    ensures View(t, id, viewer).Some? <==>
              id in t.notes && (t.notes[id].draft.visibility == Public || viewer == Some(t.notes[id].author))
    ensures View(t, id, viewer).Some? ==>
              var view := View(t, id, viewer).value;
              && view.note == t.notes[id]
              && forall reply :: reply in view.replies <==> reply in t.replies && t.replies[reply].noteId == id
  {
  }

  /** Two changes that quote the same version of a note cannot both succeed. */
  lemma {:induction false} OneChangePerVersion(lower: string -> string, seeds: map<NoteId, Note>,
                                               requests: seq<Request>, i: nat, j: nat)
    requires SeedsOk(seeds) && i < j < |Run(lower, Start(seeds), requests).log|
    requires var log := Run(lower, Start(seeds), requests).log;
             (log[i].operation.EditNote? || log[i].operation.DeleteNote?)
               && Changes(log[j].operation, log[i].operation.noteId)
    ensures var log := Run(lower, Start(seeds), requests).log;
            log[i].operation.EditNote? && log[i].operation.expectedVersion < log[j].operation.expectedVersion
  {
    ReachInv(lower, seeds, requests);
    var log := Run(lower, Start(seeds), requests).log;
    assert MayFollow(log[i].operation, log[j].operation);
  }

  /** The like count of a note is the number of subjects whose last like or unlike of it is a like. */
  lemma {:induction false} LikeCount(lower: string -> string, seeds: map<NoteId, Note>, requests: seq<Request>,
                                     id: NoteId, viewer: Option<Subject>, fans: set<Subject>)
    requires SeedsOk(seeds) && View(Run(lower, Start(seeds), requests).tables, id, viewer).Some?
    requires forall s :: s in fans <==> Liked(Run(lower, Start(seeds), requests).log, id, s)
    ensures var view := View(Run(lower, Start(seeds), requests).tables, id, viewer).value;
            view.likeCount == |fans| && (view.likedByViewer <==> viewer.Some? && viewer.value in fans)
  {
    ReachInv(lower, seeds, requests);
    var t := Run(lower, Start(seeds), requests).tables;
    var likes := set like | like in t.likes && like.noteId == id;
    assert forall s :: Like(id, s) in likes <==> s in fans;
    CountLikes(likes, id, fans);
  }

  lemma {:induction false} CountLikes(likes: set<Like>, id: NoteId, fans: set<Subject>)
    requires (forall like :: like in likes ==> like.noteId == id) && forall s :: s in fans <==> Like(id, s) in likes
    ensures |likes| == |fans|
    decreases fans
  {
    if fans == {} {
      assert forall like :: like in likes ==> like == Like(id, like.subject);
      assert likes == {};
    } else {
      var s :| s in fans;
      CountLikes(likes - {Like(id, s)}, id, fans - {s});
    }
  }

  /** Whatever happens later, authors and creation times stay, and what is deleted stays deleted. */
  lemma {:induction false} IdentityIsImmutable(lower: string -> string, seeds: map<NoteId, Note>,
                                               requests: seq<Request>, more: seq<Request>)
    requires SeedsOk(seeds)
    ensures Kept(Run(lower, Start(seeds), requests), Run(lower, Run(lower, Start(seeds), requests), more))
  {
    ReachInv(lower, seeds, requests);
    RunKeeps(lower, Run(lower, Start(seeds), requests), more);
  }

  /** A private note is nobody else's business: others can neither see, reply to, like nor change it. */
  lemma PrivateNotesAreClosed(lower: string -> string, t: Tables, r: Request)
    requires !r.operation.SetName? && !r.operation.CreateNote?
    requires r.operation.noteId in t.notes && t.notes[r.operation.noteId].draft.visibility == Private
    requires t.notes[r.operation.noteId].author != r.subject
    ensures Commit(lower, t, r).Refused? && View(t, r.operation.noteId, Some(r.subject)).None?
  {
  }

  /**
   * Only authors change or delete notes, only its author or the note's author removes a reply, only a subject
   * changes its own name or like, except that likes and replies go with a deleted note. Nothing else changes.
   */
  lemma ChangesAreAuthorized(lower: string -> string, t: Tables, r: Request)
    requires Commit(lower, t, r).Accepted?
    ensures var t' := Commit(lower, t, r).tables;
            && r.sessionPresent
            && (forall id :: id in t.notes && (id !in t'.notes || t'.notes[id] != t.notes[id]) ==>
                  t.notes[id].author == r.subject && r.operation.noteId == id
                    && r.operation.expectedVersion == t.notes[id].version)
            && (forall id :: id in t'.notes && id !in t.notes ==>
                  t'.notes[id].author == r.subject && t'.notes[id].version == 1)
            && (forall reply ::
                  reply in t.replies && (reply !in t'.replies || t'.replies[reply] != t.replies[reply]) ==>
                    reply !in t'.replies
                    && (t.replies[reply].author == r.subject
                        || (t.replies[reply].noteId in t.notes
                            && t.notes[t.replies[reply].noteId].author == r.subject)))
            && (forall reply :: reply in t'.replies && reply !in t.replies ==>
                  t'.replies[reply].author == r.subject && Visible(t, t'.replies[reply].noteId, r.subject))
            && (forall like :: (like in t.likes) != (like in t'.likes) ==>
                  like.subject == r.subject || like.noteId !in t'.notes)
            && (forall s :: s != r.subject ==> (s in t.profiles <==> s in t'.profiles)
                                               && (s in t.profiles ==> t'.profiles[s] == t.profiles[s]))
  {
    match r.operation
    case SetName(_) =>
    case CreateNote(_, _) =>
    case EditNote(_, _, _) =>
    case DeleteNote(_, _) =>
    case CreateReply(_, _, _) =>
    case DeleteReply(_, _) =>
    case LikeNote(_) =>
    case UnlikeNote(_) =>
  }

  // ----- The transaction, statement by statement

  class NotesState {
    var notes: map<NoteId, Note>
    var replies: map<ReplyId, Reply>
    var likes: set<Like>
    var profiles: map<Subject, Profile>

    constructor (seeds: map<NoteId, Note>)
      ensures Snapshot() == Start(seeds).tables
    {
      notes, replies, likes, profiles := seeds, map[], {}, map[];
    }

    function Snapshot(): Tables
      reads this
    {
      Tables(notes, replies, likes, profiles)
    }

    method CommitSessionOperation(lower: string -> string, r: Request) returns (outcome: Outcome)
      modifies this
      ensures outcome == Commit(lower, old(Snapshot()), r)
      ensures Snapshot() == if outcome.Accepted? then outcome.tables else old(Snapshot())
    {
      if !r.sessionPresent {
        return Refused(SessionInvalid);
      }
      match r.operation {
        case SetName(name) =>
          var nameKey := lower(name);
          if exists other :: other in profiles && other != r.subject && profiles[other].nameKey == nameKey {
            return Refused(NameTaken);
          }
          profiles := profiles[r.subject := Profile(name, nameKey, r.now)];
          return Accepted(Snapshot(), None);
        case CreateNote(id, draft) =>
          if id in notes {
            return Refused(IdTaken);
          }
          notes := notes[id := Note(r.subject, draft, r.now, r.now, 1, r.proofHash)];
          return Accepted(Snapshot(), Some(1));
        case EditNote(id, expectedVersion, draft) =>
          var error := OwnedNoteError(Snapshot(), id, r.subject, expectedVersion);
          if error.Some? {
            return Refused(error.value);
          }
          notes := notes[id := Edited(notes[id], draft, r.now, r.proofHash)];
          return Accepted(Snapshot(), Some(expectedVersion + 1));
        case DeleteNote(id, expectedVersion) =>
          var error := OwnedNoteError(Snapshot(), id, r.subject, expectedVersion);
          if error.Some? {
            return Refused(error.value);
          }
          likes := set like | like in likes && like.noteId != id;
          replies := map reply | reply in replies && replies[reply].noteId != id :: replies[reply];
          notes := notes - {id};
          return Accepted(Snapshot(), None);
        case CreateReply(id, reply, body) =>
          if !Visible(Snapshot(), id, r.subject) {
            return Refused(NotFound);
          }
          if reply in replies {
            return Refused(IdTaken);
          }
          replies := replies[reply := Reply(id, r.subject, body, r.now)];
          return Accepted(Snapshot(), Some(notes[id].version));
        case DeleteReply(id, reply) =>
          if !Visible(Snapshot(), id, r.subject) || reply !in replies || replies[reply].noteId != id {
            return Refused(NotFound);
          }
          if replies[reply].author != r.subject && notes[id].author != r.subject {
            return Refused(AuthorMismatch);
          }
          replies := replies - {reply};
          return Accepted(Snapshot(), Some(notes[id].version));
        case _ =>
          outcome := CommitLike(lower, r);
      }
    }

    method CommitLike(lower: string -> string, r: Request) returns (outcome: Outcome)
      requires r.sessionPresent && (r.operation.LikeNote? || r.operation.UnlikeNote?)
      modifies this`likes
      ensures outcome == Commit(lower, old(Snapshot()), r)
      ensures Snapshot() == if outcome.Accepted? then outcome.tables else old(Snapshot())
    {
      var id := r.operation.noteId;
      if id !in notes {
        return Refused(NotFound);
      }
      if notes[id].draft.visibility != Public {
        return Refused(OperationNotAllowed);
      }
      if r.operation.LikeNote? {
        likes := likes + {Like(id, r.subject)};
      } else {
        likes := likes - {Like(id, r.subject)};
      }
      return Accepted(Snapshot(), Some(notes[id].version));
    }
  }
}
