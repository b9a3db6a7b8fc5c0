/** The "managetags add" command (bot/command/impl/tags/managetagsadd.go):
    the checks before a tag is stored, and the stored record. The tag
    count, the existence test and the write are inputs. */
module ManageTagsAdd {

  import opened Base

  const TagLimit: int := 200
  /** len(tagId) in Go counts the bytes of the UTF-8 encoding. */
  const MaxTagIdBytes: nat := 16

  /** Bytes of one scalar value in UTF-8. */
  function Utf8Width(c: char): (n: nat)
    ensures 1 <= n <= 4
    ensures n == 1 <==> (c as int) < 0x80
  {
    if (c as int) < 0x80 then 1
    else if (c as int) < 0x800 then 2
    else if (c as int) < 0x1_0000 then 3
    else 4
  }

  function Utf8Length(s: string): nat {
    if s == [] then 0 else Utf8Width(s[0]) + Utf8Length(s[1..])
  }

  /** The byte length is between one and four bytes per character, and is
      the character count exactly when the text is ASCII. */
  lemma {:induction false} Utf8LengthBounds(s: string)
    ensures |s| <= Utf8Length(s) <= 4 * |s|
    ensures Utf8Length(s) == |s| <==> forall i :: 0 <= i < |s| ==> (s[i] as int) < 0x80
  {
    if s != [] {
      Utf8LengthBounds(s[1..]);
      assert forall i :: 1 <= i < |s| ==> s[i] == s[1..][i - 1];
    }
  }

  datatype TagEmbed = TagEmbed(title: string, description: string)

  /** database.Tag. */
  datatype Tag = Tag(id: string, guildId: nat, useGuildCommand: bool, content: Option<string>, embed: Option<TagEmbed>)

  datatype Effect =
    | HandleError(error: string)
    | ReplyLimit(limit: int)
    | Rejected
    | ReplyTooLong
    | ReplyAlreadyExists(tagId: string)
    | Store(tag: Tag)
    | ReplyCreated(tagId: string)

  /** The effects of Execute (lines 39-92), in order: one or two of them,
      ending in the success reply exactly when every check passed and the
      write succeeded. */
  function Execute(guildId: nat, tagId: string, content: string,
                   count: Result<int>, exists_: Result<bool>, store: Result<()>): (r: seq<Effect>)
    ensures 1 <= |r| <= 2
    ensures r[|r| - 1] == ReplyCreated(tagId) <==>
      count.Ok? && count.value < TagLimit && Utf8Length(tagId) <= MaxTagIdBytes &&
      exists_ == Ok(false) && store.Ok?
  {
    match count
    case Err(e) => [HandleError(e)]
    case Ok(n) =>
      if n >= TagLimit then [ReplyLimit(TagLimit)]
      else if Utf8Length(tagId) > MaxTagIdBytes then [Rejected, ReplyTooLong]
      else match exists_
        case Err(e) => [HandleError(e)]
        case Ok(true) => [ReplyAlreadyExists(tagId), Rejected]
        case Ok(false) =>
          var tag := Tag(tagId, guildId, false, Some(content), None);
          if store.Err? then [Store(tag), HandleError(store.error)] else [Store(tag), ReplyCreated(tagId)]
  }

  /** A guild at the limit is refused before the id is even looked at. */
  lemma LimitIsCheckedFirst(guildId: nat, tagId: string, content: string, n: int,
                            exists_: Result<bool>, store: Result<()>)
    requires n >= TagLimit
    ensures Execute(guildId, tagId, content, Ok(n), exists_, store) == [ReplyLimit(200)]
  {
  }

  /** An id over 16 bytes is rejected before the existence check; one of
      exactly 16 bytes passes the length check. */
  lemma LengthIsCheckedBeforeExistence(guildId: nat, tagId: string, content: string, n: int,
                                       exists_: Result<bool>, store: Result<()>)
    requires n < TagLimit
    ensures Utf8Length(tagId) > 16 ==> Execute(guildId, tagId, content, Ok(n), exists_, store) == [Rejected, ReplyTooLong]
    ensures Utf8Length(tagId) == 16 && exists_ == Ok(false) ==>
      Execute(guildId, tagId, content, Ok(n), exists_, store)[0].Store?
  {
  }

  /** Six euro signs are six characters but eighteen bytes: too long. */
  lemma MultiByteIdTooLong(guildId: nat, content: string, n: int, exists_: Result<bool>, store: Result<()>)
    requires n < TagLimit
    ensures Execute(guildId, "€€€€€€", content, Ok(n), exists_, store) == [Rejected, ReplyTooLong]
  {
    assert Utf8Width('€') == 3;
    assert Utf8Length("€€€€€€") == 18 by {
      var s := "€€€€€€";
      assert s[1..] == "€€€€€" && s[2..] == "€€€€" && s[3..] == "€€€" && s[4..] == "€€" && s[5..] == "€";
    }
  }

  /** A tag is written exactly when every check passes, and it is the
      guild's plain text tag with the given id and content. */
  lemma StoredExactlyWhenChecksPass(guildId: nat, tagId: string, content: string,
                                    count: Result<int>, exists_: Result<bool>, store: Result<()>)
    ensures var r := Execute(guildId, tagId, content, count, exists_, store);
      (exists i :: 0 <= i < |r| && r[i].Store?) <==>
        count.Ok? && count.value < 200 && Utf8Length(tagId) <= 16 && exists_ == Ok(false)
    ensures var r := Execute(guildId, tagId, content, count, exists_, store);
      forall i :: 0 <= i < |r| && r[i].Store? ==>
        i == 0 && r[i].tag == Tag(tagId, guildId, false, Some(content), None)
  {
    var r := Execute(guildId, tagId, content, count, exists_, store);
    if count.Ok? && count.value < 200 && Utf8Length(tagId) <= 16 && exists_ == Ok(false) {
      assert r[0].Store?;
    }
  }
}
