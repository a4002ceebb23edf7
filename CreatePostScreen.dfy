/**
 * The post composer: its text, its picked image and its loading flag. The
 * submit handler refuses an empty post, then a signed-out user, and otherwise
 * calls `createPost` with the trimmed text; a created post clears the form. The
 * Post button is disabled while loading or while there is nothing to post.
 *
 * The outcome of `createPost`, of the permission request and of the image
 * picker are parameters.
 */
module CreatePostScreen {
  import opened Common
  import opened Types

  /** The toasts the screen shows. */
  datatype Notice =
    | NeedContent       // "Please add some content or an image"
    | NeedLogin         // "You must be logged in to create a post"
    | Created           // "Post created successfully!"
    | CreateFailed      // "Failed to create post"
    | SomethingWrong    // "Something went wrong"
    | PermissionNeeded  // "Please allow access to your photos"
    | PickFailed        // "Failed to pick image"

  /** `!content.trim() && !imageUri`: the text is only whitespace and there is no image. */
  function NothingToPost(content: string, imageUri: Option<string>): (nothing: bool)
    ensures nothing <==> (forall k :: 0 <= k < |content| ==> IsWhitespace(content[k])) && !Truthy(imageUri)
  {
    TrimEmptyIff(content);
    Trim(content) == "" && !Truthy(imageUri)
  }

  /**
   * The Post button's `disabled`: loading, or the text is only whitespace and
   * there is no image.
   */
  function PostDisabled(loading: bool, content: string, imageUri: Option<string>): (disabled: bool)
    ensures disabled <==> loading || ((forall k :: 0 <= k < |content| ==> IsWhitespace(content[k])) && !Truthy(imageUri))
  {
    loading || NothingToPost(content, imageUri)
  }

  /** The arguments handed to `createPost`. */
  datatype CreateRequest = CreateRequest(userId: UserId, content: string, imageUri: Option<string>)

  /** How the awaited `createPost` call ended: with a post or null, or by throwing. */
  datatype CreateCall = Returned(post: Option<Post>) | CallThrew

  /** What the image picker gave back. */
  datatype PickResult = Canceled | Picked(assets: seq<string>) | PickerThrew

  class Composer {
    var content: string
    var imageUri: Option<string>
    var loading: bool

    constructor ()
      ensures content == "" && imageUri == None && !loading
    {
      content, imageUri, loading := "", None, false;
    }

    /**
     * `handleCreatePost`: nothing to post is refused first, then a missing user
     * id; otherwise `createPost` gets the trimmed text and the image URI (none
     * when empty). A returned post clears the form, a null result keeps it, and
     * loading is off afterwards on every path.
     */
    method HandleCreatePost(userId: Option<UserId>, call: CreateCall) returns (request: Option<CreateRequest>, notice: Notice)
      modifies this
      ensures NothingToPost(old(content), old(imageUri)) ==> request == None && notice == NeedContent && unchanged(this)
      ensures !NothingToPost(old(content), old(imageUri)) && !Truthy(userId) ==>
                request == None && notice == NeedLogin && unchanged(this)
      ensures !NothingToPost(old(content), old(imageUri)) && Truthy(userId) ==>
                && request == Some(CreateRequest(userId.value, Trim(old(content)),
                                                 if Truthy(old(imageUri)) then old(imageUri) else None))
                && !loading
      ensures request.Some? && call.Returned? && call.post.Some? ==>
                content == "" && imageUri == None && notice == Created
      ensures request.Some? && call == Returned(None) ==>
                content == old(content) && imageUri == old(imageUri) && notice == CreateFailed
      ensures request.Some? && call.CallThrew? ==>
                content == old(content) && imageUri == old(imageUri) && notice == SomethingWrong
    {
      var trimmed := Trim(content);
      var image := if Truthy(imageUri) then imageUri else None;
      if trimmed == "" && !Truthy(imageUri) {
        return None, NeedContent;
      }
      if !Truthy(userId) {
        return None, NeedLogin;
      }
      loading := true;
      request := Some(CreateRequest(userId.value, trimmed, image));
      match call {
        case Returned(post) =>
          if post.Some? {
            notice := Created;
            content := "";
            imageUri := None;
          } else {
            notice := CreateFailed;
          }
        case CallThrew =>
          notice := SomethingWrong;
      }
      loading := false;
    }

    /** `removeImage`. */
    method RemoveImage()
      modifies this
      ensures imageUri == None
      ensures content == old(content) && loading == old(loading)
    {
      imageUri := None;
    }

    /**
     * `pickImage`: `permission` is how the permission request ended (whether
     * access was granted, or a throw). The first picked asset replaces the
     * image; a refused or failed permission request, a cancelled pick, an
     * empty pick or a thrown error leaves it.
     */
    method PickImage(permission: Outcome<bool>, result: PickResult) returns (notice: Option<Notice>)
      modifies this
      ensures permission == Resolved(true) && result.Picked? && |result.assets| > 0 ==>
                imageUri == Some(result.assets[0])
      ensures !(permission == Resolved(true) && result.Picked? && |result.assets| > 0) ==> imageUri == old(imageUri)
      ensures permission.Threw? ==> notice == Some(PickFailed)
      ensures permission == Resolved(false) ==> notice == Some(PermissionNeeded)
      ensures permission == Resolved(true) && result.PickerThrew? ==> notice == Some(PickFailed)
      ensures permission == Resolved(true) && !result.PickerThrew? ==> notice == None
      ensures content == old(content) && loading == old(loading)
    {
      match permission {
        case Threw =>
          return Some(PickFailed);
        case Resolved(granted) =>
          if !granted {
            return Some(PermissionNeeded);
          }
      }
      match result {
        case Canceled => notice := None;
        case Picked(assets) =>
          if |assets| > 0 {
            imageUri := Some(assets[0]);
          }
          notice := None;
        case PickerThrew => notice := Some(PickFailed);
      }
    }
  }

  /** When the Post button is enabled, a press gets past the content check. */
  lemma EnabledButtonPassesContentCheck(loading: bool, content: string, imageUri: Option<string>)
    requires !PostDisabled(loading, content, imageUri)
    ensures !loading && !NothingToPost(content, imageUri)
  {
  }
}
