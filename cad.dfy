/**
 * Wall placement (src/cad.h).
 *
 * `cad_State` is a global that `cad_frame` updates once per frame: while a
 * wall is being placed, a click stores a post at the mouse's ground position
 * in the next free slot of a fixed array of ten posts; without a click the
 * post is only drawn as a preview.  Every placed post is then drawn.  The
 * mouse position and button are parameters; drawing a post is modelled as
 * appending it to the list of posts the frame draws.
 */
module Cad {

  /** A `cad_Post *`: null, or the post stored in a slot of `posts`. */
  datatype PostRef = Null | Slot(index: nat)

  /** `cad_Post`: links to neighbouring posts and a ground position. */
  datatype Post = Post(next: PostRef, last: PostRef, x: real, y: real)

  /** The number of slots of `posts`. */
  const PostCapacity: nat := 10

  /** A post made by `cad_Post post = {0}` and then given the mouse's ground position. */
  function NewPost(x: real, y: real): (p: Post)
    ensures p.next == Null && p.last == Null
    ensures p.x == x && p.y == y
  {
    Post(Null, Null, x, y)
  }

  /** `cad_State`. */
  class CadState {
    var placingWall: bool
    var posts: array<Post>
    var postCount: int

    ghost predicate Valid()
      reads this
    {
      posts.Length == PostCapacity && 0 <= postCount <= PostCapacity
    }

    /** The posts placed so far, in placement order. */
    ghost function Placed(): seq<Post>
      reads this, posts
      requires Valid()
    {
      posts[..postCount]
    }

    /** The zero-initialised global: not placing, no posts, every slot zero. */
    constructor ()
      ensures Valid() && fresh(posts)
      ensures !placingWall && postCount == 0 && Placed() == []
      ensures forall i :: 0 <= i < posts.Length ==> posts[i] == Post(Null, Null, 0.0, 0.0)
    {
      placingWall := false;
      posts := new Post[PostCapacity](_ => Post(Null, Null, 0.0, 0.0));
      postCount := 0;
    }

    /**
     * `cad_frame`.  It writes `posts[post_count++]` without checking the
     * capacity, so a click while placing needs a free slot.
     */
    method Frame(mouseX: real, mouseY: real, lmbDown: bool) returns (drawn: seq<Post>)
      requires Valid()
      requires placingWall && lmbDown ==> postCount < PostCapacity
      modifies this`postCount, posts
      ensures Valid() && posts == old(posts) && placingWall == old(placingWall)
      ensures placingWall && lmbDown ==>
        postCount == old(postCount) + 1 && Placed() == old(Placed()) + [NewPost(mouseX, mouseY)]
      ensures placingWall && lmbDown ==> posts[..] == old(posts[..])[old(postCount) := NewPost(mouseX, mouseY)]
      ensures !(placingWall && lmbDown) ==> postCount == old(postCount) && posts[..] == old(posts[..])
      ensures forall i :: 0 <= i < old(postCount) ==> posts[i] == old(posts[i])
      ensures drawn == (if placingWall && !lmbDown then [NewPost(mouseX, mouseY)] else []) + Placed()
    {
      drawn := [];
      if placingWall {
        var post := NewPost(mouseX, mouseY);
        if lmbDown {
          posts[postCount] := post;
          postCount := postCount + 1;
        } else {
          drawn := drawn + [post];
        }
      }
      ghost var preview := drawn;
      for i := 0 to postCount
        invariant drawn == preview + posts[..i]
      {
        drawn := drawn + [posts[i]];
      }
    }
  }
}
