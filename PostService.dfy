/**
 * The post service's own logic around its backend calls: the storage file name
 * of an uploaded image, the storage path recovered from an image URL when a
 * post is deleted, the upload guard of post creation, the empty fallback of the
 * feed queries, and the byte copy that turns `atob`'s output into the upload
 * buffer. Every backend call is a parameter carrying its outcome.
 */
module PostService {
  import opened Common
  import opened Types

  /** What `imageUrl.split(...)` splits on: the bucket's segment of a public URL. */
  const Separator: string := "/post-images/"

  // ---------------------------------------------------------------------------
  // Storage file names and public URLs
  // ---------------------------------------------------------------------------

  /** `${userId}/${Date.now()}.jpg`. */
  function FileName(userId: UserId, timestamp: nat): (name: string)
    ensures |name| == |userId| + |DecimalString(timestamp)| + 5
    ensures name[..|userId|] == userId && name[|userId|] == '/'
    ensures name[|name| - 4..] == ".jpg"
    ensures name[|userId| + 1..|name| - 4] == DecimalString(timestamp)
  {
    userId + "/" + DecimalString(timestamp) + ".jpg"
  }

  /** Uploads by the same user at different times get different file names. */
  lemma FileNameInjective(userId: UserId, t1: nat, t2: nat)
    requires FileName(userId, t1) == FileName(userId, t2)
    ensures t1 == t2
  {
    var n1, n2 := FileName(userId, t1), FileName(userId, t2);
    assert DecimalString(t1) == n1[|userId| + 1..|n1| - 4];
    DecimalStringInjective(t1, t2);
  }

  /** The public URL the storage bucket gives a stored file under `root`. */
  function PublicUrl(root: string, fileName: string): string {
    root + Separator + fileName
  }

  /** The separator starts at index `k` of `s`. */
  predicate OccursAt(s: string, k: nat) {
    k + |Separator| <= |s| && s[k..k + |Separator|] == Separator
  }

  /** The separator occurs nowhere in `s`. */
  predicate SeparatorFree(s: string) {
    forall k :: 0 <= k <= |s| ==> !OccursAt(s, k)
  }

  /** The first occurrence of the separator at or after `k`. */
  function FindFrom(s: string, k: nat): (r: Option<nat>)
    requires k <= |s|
    ensures r.Some? ==> k <= r.value && OccursAt(s, r.value)
    ensures r.Some? ==> forall m :: k <= m < r.value ==> !OccursAt(s, m)
    ensures r.None? ==> forall m :: k <= m <= |s| ==> !OccursAt(s, m)
    decreases |s| - k
  {
    if k + |Separator| > |s| then None
    else if OccursAt(s, k) then Some(k)
    else FindFrom(s, k + 1)
  }

  /**
   * `p` is the second piece of `s` when split on the separator, the separator's
   * first occurrence being at `i`: `p` starts right after that occurrence,
   * holds no occurrence, and ends at the next occurrence or at the end of `s`.
   */
  ghost predicate IsSecondPiece(s: string, i: nat, p: string) {
    && OccursAt(s, i)
    && (forall m :: 0 <= m < i ==> !OccursAt(s, m))
    && i + |Separator| + |p| <= |s|
    && s[i + |Separator|..i + |Separator| + |p|] == p
    && (forall m :: i + |Separator| <= m < i + |Separator| + |p| ==> !OccursAt(s, m))
    && (i + |Separator| + |p| == |s| || OccursAt(s, i + |Separator| + |p|))
  }

  /**
   * `s.split(Separator)[1]`: the text between the first and the second
   * occurrence of the separator, or everything after the first when there is
   * no second; undefined when the separator does not occur.
   */
  function SecondPiece(s: string): (r: Option<string>)
    ensures r.None? <==> SeparatorFree(s)
    ensures r.Some? ==> exists i :: IsSecondPiece(s, i, r.value)
  {
    match FindFrom(s, 0)
    case None => None
    case Some(i) =>
      var start := i + |Separator|;
      match FindFrom(s, start)
      case None =>
        assert IsSecondPiece(s, i, s[start..]);
        Some(s[start..])
      case Some(j) =>
        assert IsSecondPiece(s, i, s[start..j]);
        Some(s[start..j])
  }

  /** An occurrence with none before it, from `k` on, is the one `FindFrom` finds. */
  lemma FindFromFirst(s: string, k: nat, i: nat)
    requires k <= i && OccursAt(s, i)
    requires forall m :: k <= m < i ==> !OccursAt(s, m)
    ensures FindFrom(s, k) == Some(i)
  {
  }

  /** Conversely, a piece that meets the description of the second piece is what the split gives. */
  lemma SecondPieceUnique(s: string, i: nat, p: string)
    requires IsSecondPiece(s, i, p)
    ensures SecondPiece(s) == Some(p)
  {
    var start := i + |Separator|;
    var end := start + |p|;
    FindFromFirst(s, 0, i);
    if end == |s| {
      assert s[start..] == p;
    } else {
      FindFromFirst(s, start, end);
    }
  }

  /**
   * The storage path `deletePost` removes: the second piece of a present,
   * non-empty image URL, when that piece is non-empty. A URL without the
   * separator gives no path.
   */
  function StoragePath(imageUrl: Option<string>): (r: Option<string>)
    ensures r.Some? ==> Truthy(imageUrl) && r.value != "" && SecondPiece(imageUrl.value) == r
    ensures Truthy(imageUrl) && SecondPiece(imageUrl.value).Some? && SecondPiece(imageUrl.value).value != "" ==>
              r == SecondPiece(imageUrl.value)
    ensures imageUrl.Some? && SeparatorFree(imageUrl.value) ==> r == None
  {
    if !Truthy(imageUrl) then None
    else match SecondPiece(imageUrl.value)
      case Some(path) => if path != "" then Some(path) else None
      case None => None
  }

  /** A URL with the bucket segment once gives the text after it. */
  lemma StoragePathAfterSegment()
    ensures StoragePath(Some("a/post-images/x")) == Some("x")
  {
    var u := "a/post-images/x";
    assert u[1..14] == Separator;
    assert u[0..13][0] != Separator[0];
    SecondPieceUnique(u, 1, "x");
  }

  /** A URL that ends with the bucket segment gives an empty piece, so nothing is removed. */
  lemma StoragePathOfBareSegment()
    ensures StoragePath(Some("a/post-images/")) == None
  {
    var u := "a/post-images/";
    assert u[1..14] == Separator;
    assert u[0..13][0] != Separator[0];
    SecondPieceUnique(u, 1, "");
  }

  /**
   * Round trip: the path recovered from a public URL is the stored path, when
   * the root does not itself run into the separator and the path does not
   * contain it.
   */
  lemma StoragePathOfPublicUrl(root: string, path: string)
    requires forall k :: 0 <= k < |root| ==> !OccursAt(root + Separator, k)
    requires SeparatorFree(path) && path != ""
    ensures StoragePath(Some(PublicUrl(root, path))) == Some(path)
  {
    var url := PublicUrl(root, path);
    var start := |root| + |Separator|;
    assert url[|root|..start] == Separator;
    assert OccursAt(url, |root|);
    var head := root + Separator;
    assert url == head + path;
    forall k | 0 <= k < |root| ensures !OccursAt(url, k) {
      assert !OccursAt(head, k);
      assert url[k..k + |Separator|] == head[k..k + |Separator|];
    }
    assert FindFrom(url, 0) == Some(|root|);
    assert url[start..] == path;
    forall m | start <= m <= |url| ensures !OccursAt(url, m) {
      if m + |Separator| <= |url| {
        assert url[m..m + |Separator|] == path[m - start..m - start + |Separator|];
        assert !OccursAt(path, m - start);
      }
    }
    assert FindFrom(url, start) == None;
  }

  /** A file name for a user id without a slash holds exactly one slash, so it never holds the separator. */
  lemma FileNameSeparatorFree(userId: UserId, timestamp: nat)
    requires forall i :: 0 <= i < |userId| ==> userId[i] != '/'
    ensures SeparatorFree(FileName(userId, timestamp)) && FileName(userId, timestamp) != ""
  {
    var name := FileName(userId, timestamp);
    var digits := DecimalString(timestamp);
    assert name == userId + ['/'] + digits + ['.', 'j', 'p', 'g'];
    forall i | 0 <= i < |name| && i != |userId| ensures name[i] != '/' {
      if i < |userId| {
        assert name[i] == userId[i];
      } else if i < |userId| + 1 + |digits| {
        assert name[i] == digits[i - |userId| - 1];
      }
    }
    forall k | 0 <= k <= |name| ensures !OccursAt(name, k) {
      if k + |Separator| <= |name| {
        var piece := name[k..k + |Separator|];
        if k != |userId| {
          assert piece[0] == name[k] != '/';
        } else {
          assert piece[12] == name[k + 12] != '/';
        }
        assert piece != Separator;
      }
    }
  }

  // ---------------------------------------------------------------------------
  // uploadImage, createPost, deletePost, fetchPosts / fetchUserPosts
  // ---------------------------------------------------------------------------

  /**
   * `uploadImage`: the public URL of `${userId}/${now}.jpg` when compressing,
   * reading and storing the image all succeed, null when any of them fails.
   */
  function UploadImage(userId: UserId, now: nat, root: string, fails: bool): (r: Option<string>)
    ensures r.None? <==> fails
  {
    if fails then None else Some(PublicUrl(root, FileName(userId, now)))
  }

  /**
   * Deleting a post whose image was uploaded by `uploadImage` removes exactly
   * the file that upload stored.
   */
  lemma UploadedImageIsRemovedOnDelete(userId: UserId, now: nat, root: string)
    requires forall i :: 0 <= i < |userId| ==> userId[i] != '/'
    requires forall k :: 0 <= k < |root| ==> !OccursAt(root + Separator, k)
    ensures StoragePath(UploadImage(userId, now, root, false)) == Some(FileName(userId, now))
  {
    FileNameSeparatorFree(userId, now);
    StoragePathOfPublicUrl(root, FileName(userId, now));
  }

  /** The row `createPost` inserts. */
  datatype NewPostRow = NewPostRow(userId: UserId, content: string, imageUrl: Option<string>)

  /** What `createPost` inserted, if anything, and what it resolved with. */
  datatype CreateResult = CreateResult(inserted: Option<NewPostRow>, post: Option<Post>)

  /**
   * `createPost`: `upload` is what `uploadImage` resolved with (consulted only
   * when an image URI is given), `insert` what the insert returned (none on an
   * insert error). A failed upload aborts before the insert; without an image
   * the row's image URL is null; the result is the inserted post or null.
   */
  function CreatePost(userId: UserId, content: string, imageUri: Option<string>,
                      upload: Option<string>, insert: Option<Post>): (r: CreateResult)
    ensures Truthy(imageUri) && !Truthy(upload) ==> r == CreateResult(None, None)
    ensures !Truthy(imageUri) ==> r.inserted == Some(NewPostRow(userId, content, None))
    ensures Truthy(imageUri) && Truthy(upload) ==> r.inserted == Some(NewPostRow(userId, content, upload))
    ensures r.post.Some? ==> r.inserted.Some? && r.post == insert
    ensures r.inserted.Some? ==> r.post == insert
  {
    var imageUrl := if Truthy(imageUri) then upload else None;
    if Truthy(imageUri) && !Truthy(imageUrl) then CreateResult(None, None)
    else CreateResult(Some(NewPostRow(userId, content, imageUrl)), insert)
  }

  /** What `deletePost` did: the storage path it asked to remove, if any, and its result. */
  datatype DeleteResult = DeleteResult(removedPath: Option<string>, ok: bool)

  /**
   * `deletePost`: removes the image's storage path when one can be recovered,
   * then deletes the row; the result is whether the row delete reported no
   * error, whatever the storage removal did.
   */
  function DeletePost(imageUrl: Option<string>, deleteFails: bool): (r: DeleteResult)
    ensures r.ok <==> !deleteFails
    ensures r.removedPath.Some? ==> Truthy(imageUrl) && r.removedPath.value != ""
    ensures Truthy(imageUrl) && SecondPiece(imageUrl.value).Some? && SecondPiece(imageUrl.value).value != "" ==>
              r.removedPath == SecondPiece(imageUrl.value)
    ensures imageUrl.Some? && SeparatorFree(imageUrl.value) ==> r.removedPath == None
  {
    DeleteResult(StoragePath(imageUrl), !deleteFails)
  }

  /** `fetchPosts` / `fetchUserPosts`: the rows, or `[]` when the query fails or gives null. */
  function FetchPosts(q: Query<Post>): (r: seq<Post>)
    ensures q.QueryError? || q.data.None? ==> r == []
    ensures q.Rows? && q.data.Some? ==> r == q.data.value
  {
    match q
    case Rows(Some(posts)) => posts
    case _ => []
  }

  // ---------------------------------------------------------------------------
  // decode
  // ---------------------------------------------------------------------------

  newtype Byte = x: int | 0 <= x < 256

  /** Storing a character code into a `Uint8Array` keeps it modulo 256. */
  function ByteOf(c: char): (b: Byte)
    ensures b as int == c as int % 256
  {
    (c as int % 256) as Byte
  }

  /** The bytes `decode` produces: one per character, the character's code modulo 256. */
  function BinaryBytes(s: string): (r: seq<Byte>)
    ensures |r| == |s|
    ensures forall i :: 0 <= i < |s| ==> r[i] as int == s[i] as int % 256
  {
    seq(|s|, i requires 0 <= i < |s| => ByteOf(s[i]))
  }

  /** On `atob`'s output, every code is below 256, so each byte is the character's code. */
  lemma BinaryBytesAreCharCodes(s: string)
    requires forall i :: 0 <= i < |s| ==> s[i] as int < 256
    ensures forall i :: 0 <= i < |s| ==> BinaryBytes(s)[i] as int == s[i] as int
  {
  }

  /** `decode` after `atob`: a fresh byte buffer the length of the string, filled index by index. */
  method Decode(binary: string) returns (bytes: array<Byte>)
    ensures fresh(bytes)
    ensures bytes[..] == BinaryBytes(binary)
  {
    bytes := new Byte[|binary|];
    var i := 0;
    while i < |binary|
      invariant 0 <= i <= |binary|
      invariant forall k :: 0 <= k < i ==> bytes[k] == ByteOf(binary[k])
    {
      bytes[i] := ByteOf(binary[i]);
      i := i + 1;
    }
  }
}
