/** tweet:snapshot:* hashes and the reverse index author_tweets:* that feed-service keeps
    beside them. */
module Snapshots {
  import opened Enrich

  /** `authorTweets` has no entry for an empty set, as Redis keeps no empty key. */
  datatype Index = Index(snapshots: map<string, Hash>, authorTweets: map<string, set<string>>)

  datatype UserFields = UserFields(username: string, displayName: string, avatarUrl: string)

  datatype Event =
    | Created(tweetId: string, authorId: string, content: Hash, author: UserFields)
    | Deleted(tweetId: string)
    | UserUpdated(userId: string, fields: UserFields)

  function Members(s: Index, author: string): set<string> {
    if author in s.authorTweets then s.authorTweets[author] else {}
  }

  function WithMembers(m: map<string, set<string>>, author: string, tweets: set<string>): map<string, set<string>> {
    if tweets == {} then m - {author} else m[author := tweets]
  }

  function AuthorFields(u: UserFields): Hash {
    map[AuthorUsername := u.username, AuthorDisplayName := u.displayName, AuthorAvatarUrl := u.avatarUrl]
  }

  /** HSET: the given fields replace or join those of the hash, which is created if absent. */
  function HSet(m: map<string, Hash>, key: string, fields: Hash): map<string, Hash> {
    m[key := (if key in m then m[key] else map[]) + fields]
  }

  function SnapshotFields(e: Event): Hash
    requires e.Created?
  {
    e.content + AuthorFields(e.author) + map[AuthorId := e.authorId]
  }

  function Handle(s: Index, e: Event): Index {
    match e
    case Created(t, a, _, _) =>
      Index(HSet(s.snapshots, t, SnapshotFields(e)), WithMembers(s.authorTweets, a, Members(s, a) + {t}))
    case Deleted(t) =>
      var a := if t in s.snapshots then Field(s.snapshots[t], AuthorId) else "";
      Index(s.snapshots - {t}, if a == "" then s.authorTweets else WithMembers(s.authorTweets, a, Members(s, a) - {t}))
    case UserUpdated(u, fields) =>
      s.(snapshots := HSetAll(s.snapshots, Members(s, u), AuthorFields(fields)))
  }

  function HSetAll(m: map<string, Hash>, keys: set<string>, fields: Hash): map<string, Hash> {
    map k | k in m.Keys + keys :: if k in keys then HSet(m, k, fields)[k] else m[k]
  }

  lemma HSetAllAdd(m: map<string, Hash>, keys: set<string>, k: string, fields: Hash)
    requires k !in keys
    ensures HSetAll(m, keys + {k}, fields) == HSet(HSetAll(m, keys, fields), k, fields)
  {
  }

  function HandleAll(s: Index, events: seq<Event>): Index {
    if events == [] then s else Handle(HandleAll(s, events[..|events| - 1]), events[|events| - 1])
  }

  const EMPTY: Index := Index(map[], map[])

  // -------------------------------------------------------------- invariant

  ghost predicate AuthoredBy(s: Index, t: string, a: string) {
    t in s.snapshots && Field(s.snapshots[t], AuthorId) == a
  }

  /** A tweet is in an author's set exactly when it has a snapshot by that author. */
  ghost predicate Indexed(s: Index) {
    forall a, t :: t in Members(s, a) <==> AuthoredBy(s, t, a)
  }

  lemma MembersAfter(m: map<string, set<string>>, snaps: map<string, Hash>, a: string, tweets: set<string>, b: string)
    ensures Members(Index(snaps, WithMembers(m, a, tweets)), b)
         == if a == b then tweets else Members(Index(snaps, m), b)
  {
  }

  // ------------------------------------------------- what the handlers write

  /** The author fields of the hash are these. */
  predicate HasAuthorFields(f: Hash, u: UserFields) {
    && AuthorUsername in f && f[AuthorUsername] == u.username
    && AuthorDisplayName in f && f[AuthorDisplayName] == u.displayName
    && AuthorAvatarUrl in f && f[AuthorAvatarUrl] == u.avatarUrl
  }

  predicate IsAuthorName(n: Name) {
    n == AuthorUsername || n == AuthorDisplayName || n == AuthorAvatarUrl
  }

  /** `f` is `had` with this author and content written over it. */
  ghost predicate Writes(f: Hash, had: Hash, content: Hash, a: string, u: UserFields) {
    && AuthorId in f && f[AuthorId] == a && HasAuthorFields(f, u)
    && (forall n <- content | n != AuthorId && !IsAuthorName(n) :: n in f && f[n] == content[n])
    && (forall n <- had | n != AuthorId && !IsAuthorName(n) && n !in content :: n in f && f[n] == had[n])
    && forall n <- f :: n in content || n == AuthorId || IsAuthorName(n) || n in had
  }

  lemma FieldsWritten(had: Hash, content: Hash, a: string, u: UserFields)
    ensures Writes(had + (content + AuthorFields(u) + map[AuthorId := a]), had, content, a, u)
  {
    var fs := AuthorFields(u);
    assert forall n :: n in fs <==> IsAuthorName(n);
  }

  /** A creation touches no other snapshot. */
  lemma CreatedTouchesOne(s: Index, t: string, a: string, content: Hash, u: UserFields)
    ensures var s' := Handle(s, Created(t, a, content, u));
            && s'.snapshots.Keys == s.snapshots.Keys + {t}
            && forall k <- s.snapshots | k != t :: s'.snapshots[k] == s.snapshots[k]
  {
  }

  /** A creation writes the author's ID and fields and all of the content, and keeps what other
      fields the hash had. */
  lemma CreatedWrites(s: Index, t: string, a: string, content: Hash, u: UserFields)
    ensures t in Handle(s, Created(t, a, content, u)).snapshots
    ensures Writes(Handle(s, Created(t, a, content, u)).snapshots[t],
                   if t in s.snapshots then s.snapshots[t] else map[], content, a, u)
  {
    FieldsWritten(if t in s.snapshots then s.snapshots[t] else map[], content, a, u);
  }

  /** A deletion takes that snapshot and no other. */
  lemma DeletedTakes(s: Index, t: string)
    ensures var s' := Handle(s, Deleted(t));
            && s'.snapshots.Keys == s.snapshots.Keys - {t}
            && forall k <- s'.snapshots :: s'.snapshots[k] == s.snapshots[k]
  {
  }

  /** A user update writes the three author fields of every tweet in the user's set, keeps
      their other fields, and touches no other snapshot. */
  lemma UserUpdatedWrites(s: Index, u: string, fields: UserFields)
    ensures var s', mine := Handle(s, UserUpdated(u, fields)), if u in s.authorTweets then s.authorTweets[u] else {};
            && s'.authorTweets == s.authorTweets
            && (forall t <- mine :: t in s'.snapshots && HasAuthorFields(s'.snapshots[t], fields))
            && (forall t <- mine, n | t in s.snapshots && n in s.snapshots[t] && !IsAuthorName(n) ::
                  n in s'.snapshots[t] && s'.snapshots[t][n] == s.snapshots[t][n])
            && forall t <- s.snapshots | t !in mine :: t in s'.snapshots && s'.snapshots[t] == s.snapshots[t]
  {
  }

  /** A tweet.created event keeps the index exactly when it does not change a tweet's author. */
  lemma CreatedKeepsIff(s: Index, e: Event)
    requires Indexed(s) && e.Created?
    ensures Indexed(Handle(s, e)) <==> forall a :: AuthoredBy(s, e.tweetId, a) ==> a == e.authorId
  {
    var s' := Handle(s, e);
    forall b ensures Members(s', b) == if b == e.authorId then Members(s, b) + {e.tweetId} else Members(s, b) {
      MembersAfter(s.authorTweets, s'.snapshots, e.authorId, Members(s, e.authorId) + {e.tweetId}, b);
    }
    forall t, a ensures AuthoredBy(s', t, a) <==> if t == e.tweetId then a == e.authorId else AuthoredBy(s, t, a) {}
    forall a | AuthoredBy(s, e.tweetId, a) && a != e.authorId ensures !Indexed(s') {
      assert e.tweetId in Members(s', a) && !AuthoredBy(s', e.tweetId, a);
    }
  }

  /** A tweet.deleted event keeps the index exactly when the snapshot, if there is one, names
      its author: the handler reads an empty author_id as "no snapshot". */
  lemma DeletedKeepsIff(s: Index, t: string)
    requires Indexed(s)
    ensures Indexed(Handle(s, Deleted(t))) <==> !AuthoredBy(s, t, "")
  {
    var s' := Handle(s, Deleted(t));
    var author := if t in s.snapshots then Field(s.snapshots[t], AuthorId) else "";
    forall b ensures Members(s', b) == if b == author != "" then Members(s, b) - {t} else Members(s, b) {
      if author != "" {
        MembersAfter(s.authorTweets, s'.snapshots, author, Members(s, author) - {t}, b);
      }
    }
    forall u, a ensures AuthoredBy(s', u, a) <==> u != t && AuthoredBy(s, u, a) {}
    if AuthoredBy(s, t, "") {
      assert t in Members(s', "") && !AuthoredBy(s', t, "");
    }
  }

  /** user.updated rewrites the author fields of all and only that user's snapshots. */
  lemma UserUpdatedRewritesOwn(s: Index, u: string, fields: UserFields)
    requires Indexed(s)
    ensures var s' := Handle(s, UserUpdated(u, fields));
            && Indexed(s') && s'.snapshots.Keys == s.snapshots.Keys
            && forall t <- s.snapshots ::
                 var own := s.snapshots[t];
                 s'.snapshots[t] == if AuthoredBy(s, t, u) then own + AuthorFields(fields) else own
  {
    var s' := Handle(s, UserUpdated(u, fields));
    assert forall t <- Members(s, u) :: AuthoredBy(s, t, u);
    forall a, t ensures t in Members(s', a) <==> AuthoredBy(s', t, a) {
      assert Members(s', a) == Members(s, a);
    }
  }

  /** user.updated brings no snapshot back exactly when every tweet in the user's set still has one. */
  lemma UserUpdatedResurrectsIff(s: Index, u: string, fields: UserFields)
    ensures Handle(s, UserUpdated(u, fields)).snapshots.Keys == s.snapshots.Keys <==> Members(s, u) <= s.snapshots.Keys
  {
    assert Handle(s, UserUpdated(u, fields)).snapshots.Keys == s.snapshots.Keys + Members(s, u);
  }

  /** Every tweet.created names an author, and for each tweet always the same one. */
  ghost predicate AuthorsFixed(events: seq<Event>, authorOf: map<string, string>) {
    forall e <- events :: e.Created? ==> e.tweetId in authorOf && authorOf[e.tweetId] == e.authorId != ""
  }

  lemma AuthorStays(s: Index, e: Event, t: string, a: string)
    requires Indexed(s) && AuthoredBy(Handle(s, e), t, a)
    ensures AuthoredBy(s, t, a) || (e.Created? && e.tweetId == t && e.authorId == a)
  {
    if e.UserUpdated? {
      UserUpdatedRewritesOwn(s, e.userId, e.fields);
    }
  }

  /** In every run of the three handlers, in any order and with any repetition, the index is
      right, and every snapshot has its tweet's author. */
  lemma {:induction false} RunKeepsIndex(events: seq<Event>, authorOf: map<string, string>)
    requires AuthorsFixed(events, authorOf)
    ensures Indexed(HandleAll(EMPTY, events))
    ensures forall t, a :: AuthoredBy(HandleAll(EMPTY, events), t, a) ==> t in authorOf && a == authorOf[t] != ""
  {
    if events != [] {
      var front, e := events[..|events| - 1], events[|events| - 1];
      var s := HandleAll(EMPTY, front);
      assert e in events && forall x <- front :: x in events;
      RunKeepsIndex(front, authorOf);
      forall t, a | AuthoredBy(Handle(s, e), t, a)
        ensures AuthoredBy(s, t, a) || (e.Created? && e.tweetId == t && e.authorId == a)
      {
        AuthorStays(s, e, t, a);
      }
      match e {
        case Created(_, _, _, _) => CreatedKeepsIff(s, e);
        case Deleted(t) => DeletedKeepsIff(s, t);
        case UserUpdated(u, fields) => UserUpdatedRewritesOwn(s, u, fields);
      }
    }
  }

  // ------------------------------------------------------------------- code

  class SnapshotStore {
    var snapshots: map<string, Hash>
    var authorTweets: map<string, set<string>>

    constructor ()
      ensures View() == EMPTY
    {
      snapshots, authorTweets := map[], map[];
    }

    function View(): Index
      reads this
    {
      Index(snapshots, authorTweets)
    }

    method SAdd(author: string, tweet: string)
      modifies this`authorTweets
      ensures authorTweets == WithMembers(old(authorTweets), author, Members(old(View()), author) + {tweet})
    {
      var members := if author in authorTweets then authorTweets[author] else {};
      authorTweets := authorTweets[author := members + {tweet}];
    }

    method SRem(author: string, tweet: string)
      modifies this`authorTweets
      ensures authorTweets == WithMembers(old(authorTweets), author, Members(old(View()), author) - {tweet})
    {
      var members := (if author in authorTweets then authorTweets[author] else {}) - {tweet};
      authorTweets := if members == {} then authorTweets - {author} else authorTweets[author := members];
    }

    /** `SetTweetSnapshot` */
    method SetTweetSnapshot(tweetId: string, authorId: string, content: Hash, author: UserFields)
      modifies this
      ensures View() == Handle(old(View()), Created(tweetId, authorId, content, author))
    {
      var fields := content + AuthorFields(author) + map[AuthorId := authorId];
      snapshots := HSet(snapshots, tweetId, fields);
      SAdd(authorId, tweetId);
    }

    /** `DeleteTweetSnapshot`: the author is read before the snapshot goes. */
    method DeleteTweetSnapshot(tweetId: string)
      modifies this
      ensures View() == Handle(old(View()), Deleted(tweetId))
    {
      var authorId := if tweetId in snapshots then Field(snapshots[tweetId], AuthorId) else "";
      snapshots := snapshots - {tweetId};
      if authorId != "" {
        SRem(authorId, tweetId);
      }
    }

    /** `UpdateAuthorInTweetSnapshots`: one HSET per member of the user's set, in any order. */
    method UpdateAuthor(userId: string, fields: UserFields)
      modifies this
      ensures View() == Handle(old(View()), UserUpdated(userId, fields))
    {
      var rest := if userId in authorTweets then authorTweets[userId] else {};
      ghost var all := rest;
      var before := snapshots;
      while rest != {}
        invariant rest <= all && authorTweets == old(authorTweets)
        invariant snapshots == HSetAll(before, all - rest, AuthorFields(fields))
        decreases rest
      {
        var id :| id in rest;
        assert all - (rest - {id}) == (all - rest) + {id};
        HSetAllAdd(before, all - rest, id, AuthorFields(fields));
        rest := rest - {id};
        snapshots := HSet(snapshots, id, AuthorFields(fields));
      }
    }
  }
}
