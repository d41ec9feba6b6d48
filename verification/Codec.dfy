/** The text encodings of feed-list entries and of profile / follow cursors. */
module Codec {
  import opened Sequences
  import opened Strconv
  import opened Wrappers

  const PIPE: char := '|'

  // ------------------------------------------------------------ feed entries

  datatype FeedEntry =
    | Tweet(tweetId: string)
    | Retweet(retweetId: string, tweetId: string, retweeterId: string, createdAt: int)

  function EncodeTweetEntry(tweetId: string): string {
    "T" + [PIPE] + tweetId
  }

  function EncodeRetweetEntry(retweetId: string, tweetId: string, retweeterId: string, createdAt: int): string {
    RetweetFields(retweetId, tweetId, retweeterId, FormatInt(createdAt))
  }

  function RetweetFields(retweetId: string, tweetId: string, retweeterId: string, stamp: string): string {
    "R" + [PIPE] + (retweetId + [PIPE] + (tweetId + [PIPE] + (retweeterId + [PIPE] + stamp)))
  }

  function ParseFeedEntry(raw: string): Option<FeedEntry> {
    var parts := Split(raw, PIPE);
    if parts[0] == "T" then
      if |parts| != 2 || parts[1] == "" then None else Some(Tweet(parts[1]))
    else if parts[0] == "R" then
      if |parts| != 5 then None
      else
        var ts := ParseInt(parts[4], INT64_MAX);
        if ts.err != NoError then None else Some(Retweet(parts[1], parts[2], parts[3], ts.value))
    else None
  }

  /** The texts, field by field. */
  lemma EntryTexts(id: string, r: string, u: string, at: int)
    ensures EncodeTweetEntry(id) == "T|" + id
    ensures EncodeRetweetEntry(r, id, u, at) == "R|" + r + "|" + id + "|" + u + "|" + FormatInt(at)
    ensures RetweetPrefix(r) == "R|" + r + "|"
  {
  }

  lemma SplitTweetEntry(id: string)
    ensures Split(EncodeTweetEntry(id), PIPE) == ["T"] + Split(id, PIPE)
  {
    SplitConcat("T", id, PIPE);
    SplitSingle("T", PIPE);
  }

  lemma SplitRetweetFields(r: string, t: string, u: string, stamp: string)
    requires PIPE !in stamp
    ensures Split(RetweetFields(r, t, u, stamp), PIPE)
         == ["R"] + (Split(r, PIPE) + (Split(t, PIPE) + (Split(u, PIPE) + [stamp])))
  {
    SplitSingle("R", PIPE);
    SplitSingle(stamp, PIPE);
    SplitConcat(u, stamp, PIPE);
    SplitConcat(t, u + [PIPE] + stamp, PIPE);
    SplitConcat(r, t + [PIPE] + (u + [PIPE] + stamp), PIPE);
    SplitConcat("R", r + [PIPE] + (t + [PIPE] + (u + [PIPE] + stamp)), PIPE);
  }

  /** A tweet entry parses back to its ID exactly when the ID is non-empty and free of '|'. */
  lemma TweetEntryRoundTrip(id: string)
    ensures ParseFeedEntry(EncodeTweetEntry(id)) == Some(Tweet(id)) <==> id != "" && PIPE !in id
  {
    SplitTweetEntry(id);
    SplitSingle(id, PIPE);
    JoinSplit(id, PIPE);
    var parts := ["T"] + Split(id, PIPE);
    assert parts[0] == "T" && |parts| == 1 + |Split(id, PIPE)|;
    if PIPE !in id {
      assert parts[1] == id;
    }
  }

  /** A retweet entry parses back to its four fields exactly when the three IDs are free of '|'. */
  lemma RetweetEntryRoundTrip(r: string, t: string, u: string, at: int)
    requires IsInt64(at)
    ensures ParseFeedEntry(EncodeRetweetEntry(r, t, u, at)) == Some(Retweet(r, t, u, at))
       <==> PIPE !in r && PIPE !in t && PIPE !in u
  {
    var stamp := FormatInt(at);
    FormatIntHasNo(at, PIPE);
    ParseFormatInt(at);
    SplitRetweetFields(r, t, u, stamp);
    SplitSingle(r, PIPE); SplitSingle(t, PIPE); SplitSingle(u, PIPE);
    var parts := Split(EncodeRetweetEntry(r, t, u, at), PIPE);
    assert parts[0] == "R";
    assert |parts| == 2 + |Split(r, PIPE)| + |Split(t, PIPE)| + |Split(u, PIPE)|;
    if PIPE !in r && PIPE !in t && PIPE !in u {
      assert parts == ["R", r, t, u, stamp];
    }
  }

  /** The time of a retweet entry may be written in any way that parses. */
  lemma RetweetFieldsParse(r: string, t: string, u: string, stamp: string)
    requires PIPE !in r && PIPE !in t && PIPE !in u && PIPE !in stamp
    ensures var at := ParseInt(stamp, INT64_MAX);
            ParseFeedEntry("R|" + r + "|" + t + "|" + u + "|" + stamp)
            == if at.err == NoError then Some(Retweet(r, t, u, at.value)) else None
  {
    SplitRetweetFields(r, t, u, stamp);
    SplitSingle(r, PIPE); SplitSingle(t, PIPE); SplitSingle(u, PIPE);
    var text := RetweetFields(r, t, u, stamp);
    assert text == "R|" + r + "|" + t + "|" + u + "|" + stamp;
    assert Split(text, PIPE) == ["R", r, t, u, stamp];
  }

  lemma JoinFive(parts: seq<string>)
    requires |parts| == 5 && parts[0] == "R"
    ensures Join(parts, PIPE) == RetweetFields(parts[1], parts[2], parts[3], parts[4])
  {
    var j3 := parts[3] + [PIPE] + parts[4];
    var j2 := parts[2] + [PIPE] + j3;
    var j1 := parts[1] + [PIPE] + j2;
    assert parts[3..][1..] == parts[4..] == [parts[4]];
    assert Join(parts[3..], PIPE) == j3;
    assert parts[2..][1..] == parts[3..];
    assert Join(parts[2..], PIPE) == j2;
    assert parts[1..][1..] == parts[2..];
    assert Join(parts[1..], PIPE) == j1;
  }

  /** The converse: whatever parses is the encoding of what it parses to, except that the
      time may be written non-canonically ("+5", "007"). */
  lemma ParsedEntryIsEncoding(raw: string)
    requires ParseFeedEntry(raw).Some?
    ensures match ParseFeedEntry(raw).value
            case Tweet(id) => raw == EncodeTweetEntry(id) && id != "" && PIPE !in id
            case Retweet(r, t, u, at) =>
              && PIPE !in r && PIPE !in t && PIPE !in u
              && exists stamp :: raw == RetweetFields(r, t, u, stamp)
                                 && ParseInt(stamp, INT64_MAX) == Parsed(at, NoError)
  {
    var parts := Split(raw, PIPE);
    JoinSplit(raw, PIPE);
    if parts[0] == "T" {
      assert parts == ["T", parts[1]];
      assert parts[1..] == [parts[1]];
    } else {
      JoinFive(parts);
    }
  }

  /** Distinct entries never share an encoding, and no tweet entry is a retweet entry. */
  lemma EncodersInjective(a: FeedEntry, b: FeedEntry)
    requires Encodable(a) && Encodable(b)
    ensures Encode(a) == Encode(b) <==> a == b
  {
    EncodeRoundTrip(a);
    EncodeRoundTrip(b);
  }

  predicate Encodable(e: FeedEntry) {
    match e
    case Tweet(id) => id != "" && PIPE !in id
    case Retweet(r, t, u, at) => PIPE !in r && PIPE !in t && PIPE !in u && IsInt64(at)
  }

  function Encode(e: FeedEntry): string {
    match e
    case Tweet(id) => EncodeTweetEntry(id)
    case Retweet(r, t, u, at) => EncodeRetweetEntry(r, t, u, at)
  }

  lemma EncodeRoundTrip(e: FeedEntry)
    requires Encodable(e)
    ensures ParseFeedEntry(Encode(e)) == Some(e)
  {
    match e
    case Tweet(id) => TweetEntryRoundTrip(id);
    case Retweet(r, t, u, at) => RetweetEntryRoundTrip(r, t, u, at);
  }

  /** The prefix by which the unretweet handler recognises list entries. */
  function RetweetPrefix(retweetId: string): string {
    "R" + [PIPE] + retweetId + [PIPE]
  }

  /** On every entry the service can have written, matching the text prefix is the same as
      comparing the parsed retweet ID. */
  lemma PrefixMatchesParsedRetweet(e: FeedEntry, retweetId: string)
    requires Encodable(e) && PIPE !in retweetId
    ensures RetweetPrefix(retweetId) <= Encode(e) <==> e.Retweet? && e.retweetId == retweetId
  {
    var prefix, raw := RetweetPrefix(retweetId), Encode(e);
    if e.Tweet? {
      assert raw[0] == 'T' && prefix[0] == 'R';
    } else {
      var r := e.retweetId;
      var tail := e.tweetId + [PIPE] + (e.retweeterId + [PIPE] + FormatInt(e.createdAt));
      assert raw == "R" + [PIPE] + r + [PIPE] + tail;
      if r == retweetId {
        assert raw == prefix + tail;
      } else if prefix <= raw {
        assert raw[2..] == r + [PIPE] + tail && prefix[2..] == retweetId + [PIPE];
        assert prefix[2..] <= raw[2..];
        FirstFieldUnique(r, retweetId, tail);
      }
    }
  }

  lemma FirstFieldUnique(r: string, q: string, tail: string)
    requires PIPE !in r && PIPE !in q
    requires q + [PIPE] <= r + [PIPE] + tail
    ensures r == q
  {
    var text := r + [PIPE] + tail;
    assert text == q + [PIPE] + text[|q| + 1..];
    IndexOfFirst(r, PIPE, tail);
    IndexOfFirst(q, PIPE, text[|q| + 1..]);
    assert text[..|r|] == r;
  }

  // ----------------------------------------------------------------- cursors

  datatype ProfileCursor = NoCursor | CursorAt(micros: int, id: string) | InvalidCursor

  function EncodeProfileCursor(micros: int, id: string): string {
    FormatInt(micros) + [PIPE] + id
  }

  function DecodeProfileCursor(cursor: Option<string>): ProfileCursor {
    if cursor.None? || cursor.value == "" then NoCursor
    else
      var parts := SplitTwo(cursor.value, PIPE);
      if |parts| != 2 then InvalidCursor
      else
        var micros := ParseInt(parts[0], INT64_MAX);
        if micros.err != NoError then InvalidCursor else CursorAt(micros.value, parts[1])
  }

  /** Decoding undoes encoding for every ID, even one that contains '|' or is empty. */
  lemma ProfileCursorRoundTrip(micros: int, id: string)
    requires IsInt64(micros)
    ensures DecodeProfileCursor(Some(EncodeProfileCursor(micros, id))) == CursorAt(micros, id)
  {
    var stamp, text := FormatInt(micros), EncodeProfileCursor(micros, id);
    FormatIntHasNo(micros, PIPE);
    ParseFormatInt(micros);
    IndexOfFirst(stamp, PIPE, id);
    assert text[..|stamp|] == stamp && text[|stamp| + 1..] == id;
  }

  lemma ProfileCursorText(micros: int, id: string)
    ensures EncodeProfileCursor(micros, id) == FormatInt(micros) + "|" + id
  {
  }

  /** A cursor is rejected exactly when it has no separator or no int64 before the first one. */
  lemma ProfileCursorRejects(text: string)
    requires text != ""
    ensures DecodeProfileCursor(Some(text)).InvalidCursor?
       <==> forall stamp, id ::
              text == stamp + [PIPE] + id && PIPE !in stamp ==> ParseInt(stamp, INT64_MAX).err != NoError
  {
    if PIPE in text {
      var i := IndexOf(text, PIPE);
      assert text == text[..i] + [PIPE] + text[i + 1..];
    }
    forall stamp, id | text == stamp + [PIPE] + id && PIPE !in stamp
      ensures PIPE in text && stamp == text[..IndexOf(text, PIPE)]
    {
      IndexOfFirst(stamp, PIPE, id);
      assert text[..|stamp|] == stamp;
    }
  }
}
