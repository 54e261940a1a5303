/**
 * The community board screen: a list of posts and a modal form that creates or edits one. The
 * screen's five state cells are the fields of `CommunityScreen`; each handler reads the values
 * of the render it runs in, which are the fields' values on entry.
 */
module CommunityPage {
  import opened Wrappers
  import opened Strings
  import opened Lists

  datatype Post = Post(id: int, title: string, content: string, createdAt: string)

  const INITIAL_POSTS: seq<Post> := [
    Post(1, "충주 캠퍼스 밥집 추천 모음", "학식 말고 갈만한 곳 정리해봤어요. 다들 댓글로 추가해주세요!", "2025-12-10 14:30"),
    Post(2, "셔틀 시간표 같이 정리하실 분?", "셔틀, 시내버스 시간 한 번에 보이게 정리해보고 싶어요.", "2025-12-10 13:05")
  ]

  /** No two posts share an id. */
  predicate UniqueIds(posts: seq<Post>) {
    forall i, j :: 0 <= i < j < |posts| ==> posts[i].id != posts[j].id
  }

  /** `Math.max(...posts.map(p => p.id))`. */
  function MaxId(posts: seq<Post>): (m: int)
    requires posts != []
    ensures forall k :: 0 <= k < |posts| ==> posts[k].id <= m
    ensures exists k :: 0 <= k < |posts| && posts[k].id == m
  {
    if |posts| == 1 then posts[0].id
    else
      var rest := MaxId(posts[1..]);
      assert forall k :: 1 <= k < |posts| ==> posts[k] == posts[1..][k - 1];
      if posts[0].id >= rest then posts[0].id else rest
  }

  /** The id of a new post: one more than the largest id, or 1 on an empty board. */
  function NextId(posts: seq<Post>): int {
    if |posts| > 0 then MaxId(posts) + 1 else 1
  }

  /** The new id is larger than every existing one, so it is fresh; it is one more than some
      existing id, or 1 on an empty board. */
  lemma NextIdIsFresh(posts: seq<Post>)
    ensures forall k :: 0 <= k < |posts| ==> posts[k].id < NextId(posts)
    ensures posts == [] ==> NextId(posts) == 1
    ensures posts != [] ==> exists k :: 0 <= k < |posts| && NextId(posts) == posts[k].id + 1
  {
    if posts != [] {
      var m := MaxId(posts);
      var k :| 0 <= k < |posts| && posts[k].id == m;
      assert NextId(posts) == posts[k].id + 1;
    }
  }

  /** The post a create-submit adds. */
  function NewPost(posts: seq<Post>, title: string, content: string, createdAt: string): Post {
    Post(NextId(posts), JsTrim(title), JsTrim(content), createdAt)
  }

  /** The edit-submit's `map`: the post with that id takes the new title and content. */
  function Edited(posts: seq<Post>, id: int, title: string, content: string): (r: seq<Post>) {
    if posts == [] then []
    else [if posts[0].id == id then posts[0].(title := title, content := content) else posts[0]] +
         Edited(posts[1..], id, title, content)
  }

  /** The delete callback's test. */
  function OtherThan(id: int): Post -> bool {
    (p: Post) => p.id != id
  }

  /** Edit keeps the list's length, every id and every creation time, rewrites the title and
      content of the posts with the edited id, and leaves the others as they were. */
  lemma {:induction false} EditedSpec(posts: seq<Post>, id: int, title: string, content: string)
    ensures var r := Edited(posts, id, title, content);
      |r| == |posts| &&
      forall i :: 0 <= i < |posts| ==>
        r[i].id == posts[i].id && r[i].createdAt == posts[i].createdAt &&
        (posts[i].id == id ==> r[i].title == title && r[i].content == content) &&
        (posts[i].id != id ==> r[i] == posts[i])
  {
    if posts != [] {
      EditedSpec(posts[1..], id, title, content);
    }
  }

  /** Creating keeps the ids unique: the new id is above every existing one. */
  lemma CreateKeepsUniqueIds(posts: seq<Post>, title: string, content: string, createdAt: string)
    requires UniqueIds(posts)
    ensures UniqueIds([NewPost(posts, title, content, createdAt)] + posts)
  {
    var n := NewPost(posts, title, content, createdAt);
    NextIdIsFresh(posts);
    PrependDistinctId(posts, n);
  }

  /** Editing keeps the ids unique. */
  lemma EditKeepsUniqueIds(posts: seq<Post>, id: int, title: string, content: string)
    requires UniqueIds(posts)
    ensures UniqueIds(Edited(posts, id, title, content))
  {
    EditedSpec(posts, id, title, content);
  }

  /** Deleting removes exactly the posts with that id, keeps the others in order and keeps the
      ids unique. */
  lemma {:induction false} DeleteSpec(posts: seq<Post>, id: int)
    ensures forall p :: p in Filter(posts, OtherThan(id)) <==> p in posts && p.id != id
    ensures UniqueIds(posts) ==> UniqueIds(Filter(posts, OtherThan(id)))
  {
    if posts != [] && UniqueIds(posts) {
      TailUniqueIds(posts);
      DeleteSpec(posts[1..], id);
      var rest := Filter(posts[1..], OtherThan(id));
      if posts[0].id != id {
        forall k | 0 <= k < |rest|
          ensures rest[k].id != posts[0].id
        {
          assert rest[k] in rest;
          var m :| 0 <= m < |posts[1..]| && posts[1..][m] == rest[k];
          assert posts[m + 1] == rest[k];
        }
        PrependDistinctId(rest, posts[0]);
      }
    }
  }

  lemma TailUniqueIds(posts: seq<Post>)
    requires posts != [] && UniqueIds(posts)
    ensures UniqueIds(posts[1..])
  {
    forall i, j | 0 <= i < j < |posts[1..]|
      ensures posts[1..][i].id != posts[1..][j].id
    {
      assert posts[1..][i] == posts[i + 1] && posts[1..][j] == posts[j + 1];
    }
  }

  lemma PrependDistinctId(posts: seq<Post>, n: Post)
    requires UniqueIds(posts)
    requires forall k :: 0 <= k < |posts| ==> posts[k].id != n.id
    ensures UniqueIds([n] + posts)
  {
    var r := [n] + posts;
    forall i, j | 0 <= i < j < |r|
      ensures r[i].id != r[j].id
    {
      assert r[j] == posts[j - 1];
      if i > 0 {
        assert r[i] == posts[i - 1];
      }
    }
  }

  /** The posts after a submit with both fields filled in: a new post in front, or the edit. */
  function Submitted(posts: seq<Post>, editingId: Option<int>, title: string, content: string, createdAt: string)
    : seq<Post>
  {
    if editingId.None? then [NewPost(posts, title, content, createdAt)] + posts
    else Edited(posts, editingId.value, JsTrim(title), JsTrim(content))
  }

  /** A submit keeps the ids unique, whether it creates or edits. */
  lemma SubmitKeepsUniqueIds(posts: seq<Post>, editingId: Option<int>, title: string, content: string, createdAt: string)
    requires UniqueIds(posts)
    ensures UniqueIds(Submitted(posts, editingId, title, content, createdAt))
  {
    if editingId.None? {
      CreateKeepsUniqueIds(posts, title, content, createdAt);
    } else {
      EditKeepsUniqueIds(posts, editingId.value, JsTrim(title), JsTrim(content));
    }
  }

  class CommunityScreen {
    var posts: seq<Post>
    var title: string
    var content: string
    var editingId: Option<int>
    var isModalOpen: bool

    constructor()
      ensures posts == INITIAL_POSTS && title == "" && content == "" && editingId.None? && !isModalOpen
    {
      posts := INITIAL_POSTS;
      title := "";
      content := "";
      editingId := None;
      isModalOpen := false;
    }

    /** `openCreateModal`: an empty form for a new post. */
    method OpenCreateModal()
      modifies this
      ensures editingId.None? && title == "" && content == "" && isModalOpen && posts == old(posts)
    {
      editingId := None;
      title := "";
      content := "";
      isModalOpen := true;
    }

    /** `handleEdit`: the form filled with the post, remembering which post it edits. */
    method HandleEdit(post: Post)
      modifies this
      ensures editingId == Some(post.id) && title == post.title && content == post.content && isModalOpen
      ensures posts == old(posts)
    {
      editingId := Some(post.id);
      title := post.title;
      content := post.content;
      isModalOpen := true;
    }

    /** The confirmed branch of `handleDelete`: drops every post with the id, and clears the form
        when that post was the one being edited. */
    method ConfirmDelete(id: int)
      modifies this
      ensures posts == Filter(old(posts), OtherThan(id))
      ensures old(editingId) == Some(id) ==> editingId.None? && title == "" && content == ""
      ensures old(editingId) != Some(id) ==>
        editingId == old(editingId) && title == old(title) && content == old(content)
      ensures isModalOpen == old(isModalOpen)
    {
      posts := Filter(posts, OtherThan(id));
      if editingId == Some(id) {
        editingId := None;
        title := "";
        content := "";
      }
    }

    /** `handleSubmit`, with the formatted current time as a parameter. A blank title or body
        changes nothing; otherwise the post is created at the front or edited in place, and the
        modal closes with an empty form. The ids stay unique by `SubmitKeepsUniqueIds`. */
    method HandleSubmit(createdAt: string)
      modifies this
      ensures JsBlank(old(title)) || JsBlank(old(content)) ==>
        posts == old(posts) && title == old(title) && content == old(content) &&
        editingId == old(editingId) && isModalOpen == old(isModalOpen)
      ensures !JsBlank(old(title)) && !JsBlank(old(content)) ==>
        posts == Submitted(old(posts), old(editingId), old(title), old(content), createdAt) &&
        !isModalOpen && title == "" && content == "" && editingId.None?
    {
      if JsBlank(title) || JsBlank(content) {
        return;
      }
      Submit(createdAt);
    }

    /** The filled-in branch of `handleSubmit`. */
    method Submit(createdAt: string)
      modifies this
      ensures posts == Submitted(old(posts), old(editingId), old(title), old(content), createdAt)
      ensures !isModalOpen && title == "" && content == "" && editingId.None?
    {
      var next := Submitted(posts, editingId, title, content, createdAt);
      isModalOpen, title, content, editingId := false, "", "", None;
      posts := next;
    }

    /** `closeModal`: the modal closes and the form is reset; the posts stay. */
    method CloseModal()
      modifies this
      ensures !isModalOpen && title == "" && content == "" && editingId.None? && posts == old(posts)
    {
      isModalOpen := false;
      title := "";
      content := "";
      editingId := None;
    }
  }
}
