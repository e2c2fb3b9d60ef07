/** The posts page: posts, the post form's rules and the page's view
    controller. */
module Posts {
  import opened Wrappers
  import Api
  import Views

  /** A post as the server returns it. */
  datatype Post = Post(id: int, title: string, content: string,
                       createdAt: string, updatedAt: string)

  /** The post form. */
  datatype PostForm = PostForm(title: string, content: string)

  /** The declared rules: title and content are required. */
  predicate ValidPostForm(f: PostForm) {
    f.title != "" && f.content != ""
  }

  function PostId(p: Post): int {
    p.id
  }

  /** The page's controller: key `'posts'`, mutations through `postsAPI`,
      submissions gated by the post form's rules. */
  method NewPostsView(cache: Views.QueryCache) returns (v: Views.ResourceView<Post, PostForm>)
    ensures fresh(v)
    ensures v.key == "posts" && v.api == Api.PostsApi && v.cache == cache
    ensures v.idOf == PostId && v.accepts == ValidPostForm
    ensures !v.isCreating && v.editingItem == None
  {
    v := new Views.ResourceView("posts", Api.PostsApi, cache, PostId, ValidPostForm);
  }

  /** Submitting a valid form while editing post `p` sends a PUT to
      `/posts/<p.id>`; without an edited post it sends a POST to `/posts`. */
  lemma SubmitEndpoints(p: Post, f: PostForm)
    ensures Views.CallEndpoint(Api.PostsApi, Views.UpdateCall(PostId(p), f))
            == Some(Api.Endpoint(Api.Put, "/posts/" + Api.IdString(p.id)))
    ensures Views.CallEndpoint(Api.PostsApi, Views.CreateCall(f))
            == Some(Api.Endpoint(Api.Post, "/posts"))
  {
    Api.RouteLaws(Api.PostsApi, Api.Update(p.id));
    assert Api.ItemPath(Api.PostsApi, p.id) == "/posts/" + Api.IdString(p.id);
    assert "/" + Api.Collection(Api.PostsApi) == "/posts";
  }
}
