/** 08-atomic-blog/src/components/FormAddPost.js: the controlled title and body fields and the
    submit handler that hands a post to `onAddPost`. */
module BlogForm {
  import opened Wrappers
  import opened BlogPosts

  /** A submit goes through only when both fields are non-empty. */
  predicate Accepts(title: string, body: string) {
    |title| > 0 && |body| > 0
  }

  class FormAddPost {
    var title: string
    var body: string

    constructor ()
      ensures title == "" && body == ""
    {
      title := "";
      body := "";
    }

    /** `setTitle(e.target.value)`. */
    method ChangeTitle(value: string)
      modifies this
      ensures title == value && body == old(body)
    {
      title := value;
    }

    /** `setBody(e.target.value)`. */
    method ChangeBody(value: string)
      modifies this
      ensures body == value && title == old(title)
    {
      body := value;
    }

    /** `handleSubmit`: the post passed to `onAddPost`, or `None` when the guard returns early. */
    method HandleSubmit() returns (posted: Option<Post>)
      modifies this
      ensures posted.Some? <==> Accepts(old(title), old(body))
      ensures posted.Some? ==> posted.value == Post(old(title), old(body)) && title == "" && body == ""
      ensures posted.None? ==> title == old(title) && body == old(body)
    {
      if body == "" || title == "" {
        return None;
      }
      posted := Some(Post(title, body));
      title := "";
      body := "";
    }
  }

  /** Typing a title and a body and submitting posts exactly those, and the form comes back
      empty; submitting again posts nothing. */
  method TypeAndSubmit(t: string, b: string) returns (first: Option<Post>, second: Option<Post>)
    requires |t| > 0 && |b| > 0
    ensures first == Some(Post(t, b))
    ensures second == None
  {
    var form := new FormAddPost();
    form.ChangeTitle(t);
    form.ChangeBody(b);
    first := form.HandleSubmit();
    second := form.HandleSubmit();
  }
}
