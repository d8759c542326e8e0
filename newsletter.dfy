/**
 * `Subscriber.send_digest` in sidekick/newsletter/models.py: which posts a subscriber's
 * digest carries, how it greets them, and how `sent_posts` grows so that no post is
 * digested twice. Mail delivery is left to `render_to_inbox` and is not modelled; the
 * digest is returned instead.
 */
module Newsletter {
  import opened Py
  import Sorting

  /** A post as the digest sees it: primary key, publication time in seconds, tags. */
  datatype Post = Post(pk: nat, published: Option<int>, tags: set<string>)

  /** `timezone.timedelta(days=90)`, in seconds. */
  const Window := 90 * 24 * 60 * 60

  /** `[:5]` */
  const DigestSize := 5

  /**
   * A post the digest may carry: not already sent, published within the last 90 days and
   * not in the future, and with none of the excluded tags.
   */
  predicate Candidate(p: Post, sent: set<nat>, excluded: set<string>, now: int) {
    && p.pk !in sent
    && p.published.Some? && now - Window <= p.published.value <= now
    && p.tags * excluded == {}
  }

  /** The query before ordering, in the order the posts are given. */
  function Candidates(posts: seq<Post>, sent: set<nat>, excluded: set<string>, now: int): (r: seq<Post>)
    ensures forall p :: p in r <==> p in posts && Candidate(p, sent, excluded, now)
    ensures |r| <= |posts|
  {
    if posts == [] then []
    else (if Candidate(posts[0], sent, excluded, now) then [posts[0]] else []) + Candidates(posts[1..], sent, excluded, now)
  }

  /** The publication time as the ordering compares it; candidates always have one. */
  function PublishedAt(p: Post): int {
    if p.published.Some? then p.published.value else 0
  }

  predicate PublishedNoLater(a: Post, b: Post) {
    PublishedAt(a) <= PublishedAt(b)
  }

  /** `posts.order_by('published')[:5]` */
  function Selection(posts: seq<Post>, sent: set<nat>, excluded: set<string>, now: int): seq<Post> {
    var ordered := Sorting.Sort(Candidates(posts, sent, excluded, now), PublishedNoLater);
    if |ordered| <= DigestSize then ordered else ordered[..DigestSize]
  }

  lemma SortedCandidates(posts: seq<Post>, sent: set<nat>, excluded: set<string>, now: int)
    ensures var c := Candidates(posts, sent, excluded, now);
      var ordered := Sorting.Sort(c, PublishedNoLater);
      |ordered| == |c| && Sorting.Sorted(ordered, PublishedNoLater) &&
      forall p :: p in ordered <==> p in posts && Candidate(p, sent, excluded, now)
  {
    var c := Candidates(posts, sent, excluded, now);
    var ordered := Sorting.Sort(c, PublishedNoLater);
    assert Sorting.TotalPreorder(PublishedNoLater);
    Sorting.SortSorted(c, PublishedNoLater);
    assert |multiset(ordered)| == |multiset(c)|;
    forall p
      ensures p in ordered <==> p in c
    {
      assert p in ordered <==> p in multiset(ordered);
      assert p in c <==> p in multiset(c);
    }
  }

  /** The digest carries as many candidates as there are, up to five. */
  lemma SelectionSize(posts: seq<Post>, sent: set<nat>, excluded: set<string>, now: int)
    ensures var n := |Candidates(posts, sent, excluded, now)|;
      |Selection(posts, sent, excluded, now)| == if n <= DigestSize then n else DigestSize
  {
    SortedCandidates(posts, sent, excluded, now);
  }

  /** The digest carries only candidates, oldest first. */
  lemma SelectionCandidates(posts: seq<Post>, sent: set<nat>, excluded: set<string>, now: int)
    ensures var s := Selection(posts, sent, excluded, now);
      && (forall p :: p in s ==> p in posts && Candidate(p, sent, excluded, now))
      && Sorting.Sorted(s, PublishedNoLater)
  {
    SortedCandidates(posts, sent, excluded, now);
    var ordered := Sorting.Sort(Candidates(posts, sent, excluded, now), PublishedNoLater);
    var s := Selection(posts, sent, excluded, now);
    assert forall i :: 0 <= i < |s| ==> s[i] == ordered[i];
  }

  /** The digest carries the oldest candidates: every candidate left out was published no earlier than every one carried. */
  lemma SelectionOldest(posts: seq<Post>, sent: set<nat>, excluded: set<string>, now: int, p: Post, q: Post)
    requires p in Selection(posts, sent, excluded, now)
    requires q in posts && Candidate(q, sent, excluded, now) && q !in Selection(posts, sent, excluded, now)
    ensures PublishedAt(p) <= PublishedAt(q)
  {
    SortedCandidates(posts, sent, excluded, now);
    var ordered := Sorting.Sort(Candidates(posts, sent, excluded, now), PublishedNoLater);
    var s := Selection(posts, sent, excluded, now);
    assert s == ordered[..|s|];
    PrefixNoLater(ordered, |s|, p, q);
  }

  /** In posts sorted oldest first, one in the first `n` is published no later than one past them. */
  lemma PrefixNoLater(ordered: seq<Post>, n: nat, p: Post, q: Post)
    requires n <= |ordered| && Sorting.Sorted(ordered, PublishedNoLater)
    requires p in ordered[..n] && q in ordered && q !in ordered[..n]
    ensures PublishedAt(p) <= PublishedAt(q)
  {
    var i :| 0 <= i < n && ordered[..n][i] == p;
    var k :| 0 <= k < |ordered| && ordered[k] == q;
    assert PublishedNoLater(ordered[i], ordered[k]);
  }

  /**
   * `name.split()[0].capitalize()` when the name is truthy, otherwise 'there'. A name made
   * only of white space is truthy but splits into no words, and indexing the empty list
   * raises IndexError.
   */
  function GreetingAsWritten(name: Option<string>): Result<string> {
    if name.None? || name.value == "" then Ok("there")
    else match FirstWord(name.value)
      case None => Err(IndexError)
      case Some(w) => Ok(Capitalize(w))
  }

  /** A name of one space is enough to make the greeting fail. */
  lemma GreetingBlankNameFails()
    ensures GreetingAsWritten(Some(" ")) == Err(IndexError)
  {
    assert FirstWord(" ") == None by {
      assert AllSpace(" ");
    }
  }

  /** The greeting as evidently intended: the first word of the name, or 'there' when it has none. */
  function Greeting(name: Option<string>): string {
    if name.None? then "there"
    else match FirstWord(name.value)
      case None => "there"
      case Some(w) => Capitalize(w)
  }

  /**
   * The corrected greeting agrees with the code as written wherever that succeeds, and the
   * code as written fails exactly on a non-empty name made only of white space.
   */
  lemma GreetingAgrees(name: Option<string>)
    ensures GreetingAsWritten(name).Ok? ==> GreetingAsWritten(name).value == Greeting(name)
    ensures GreetingAsWritten(name).Err? <==> name.Some? && name.value != "" && AllSpace(name.value)
  {
    if name.Some? && name.value == "" {
      assert AllSpace(name.value);
    }
  }

  /** The corrected greeting is always one word without white space: the name's first word capitalised, or 'there'. */
  lemma GreetingIsOneWord(name: Option<string>)
    ensures var g := Greeting(name); g != "" && forall i :: 0 <= i < |g| ==> !IsSpace(g[i])
    ensures name.Some? && !AllSpace(name.value) ==> Upper(Greeting(name)[0]) == Greeting(name)[0]
    ensures name.None? || AllSpace(name.value) ==> Greeting(name) == "there"
  {
    if name.Some? && !AllSpace(name.value) {
      var w := FirstWord(name.value).value;
      var g := Capitalize(w);
      forall i | 0 <= i < |w|
        ensures !IsSpace(g[i])
      {
        CaseKeepsSpace(w[i]);
        assert g[i] == (if i == 0 then Upper(w[i]) else Lower(w[i]));
      }
      UpperIdempotent(w[0]);
    }
  }

  lemma CaseKeepsSpace(c: char)
    requires !IsSpace(c)
    ensures !IsSpace(Upper(c)) && !IsSpace(Lower(c))
  {
    if 'a' <= c <= 'z' {
      assert 'A' <= Upper(c) <= 'Z';
    }
    if 'A' <= c <= 'Z' {
      assert 'a' <= Lower(c) <= 'z';
    }
  }

  lemma UpperIdempotent(c: char)
    ensures Upper(Upper(c)) == Upper(c)
  {
    if 'a' <= c <= 'z' {
      assert 'A' <= Upper(c) <= 'Z';
    }
  }

  /** `{p.pk for p in posts}` */
  function Pks(posts: seq<Post>): set<nat> {
    set p | p in posts :: p.pk
  }

  /** The mail `render_to_inbox` is asked to send: the recipient, the greeting and the posts. */
  datatype Digest = Digest(recipient: (Option<string>, string), greeting: string, posts: seq<Post>)

  /**
   * What `send_digest()` sends: nothing when there are no candidates; otherwise the
   * greeting as written, whose IndexError on a blank name ends the call before any mail.
   */
  function DigestFor(name: Option<string>, email: string, sent: set<nat>, excluded: set<string>,
                     posts: seq<Post>, now: int): Result<Option<Digest>>
  {
    if Candidates(posts, sent, excluded, now) == [] then Ok(None)
    else
      var greeting :- GreetingAsWritten(name);
      Ok(Some(Digest((name, email), greeting, Selection(posts, sent, excluded, now))))
  }

  /**
   * A post is never digested twice: after a digest, the next one, whatever the posts and
   * the time, carries none of the posts just sent.
   */
  lemma NeverDigestedTwice(posts: seq<Post>, sent: set<nat>, excluded: set<string>, now: int,
                           posts': seq<Post>, excluded': set<string>, now': int)
    ensures var first := Selection(posts, sent, excluded, now);
      forall p :: p in Selection(posts', sent + Pks(first), excluded', now') ==> p.pk !in sent && p.pk !in Pks(first)
  {
    SelectionCandidates(posts', sent + Pks(Selection(posts, sent, excluded, now)), excluded', now');
  }

  /**
   * Nothing is sent exactly when no post is a candidate. With candidates, the call fails
   * with IndexError exactly when the name is non-empty and only white space; otherwise
   * between one and five posts go out under the corrected greeting.
   */
  lemma DigestNonEmpty(name: Option<string>, email: string, sent: set<nat>, excluded: set<string>, posts: seq<Post>, now: int)
    ensures var d := DigestFor(name, email, sent, excluded, posts, now);
      && (d == Ok(None) <==> forall p :: p in posts ==> !Candidate(p, sent, excluded, now))
      && (d.Err? <==> (exists p :: p in posts && Candidate(p, sent, excluded, now))
                      && name.Some? && name.value != "" && AllSpace(name.value))
      && (d.Err? ==> d.error == IndexError)
      && (d.Ok? && d.value.Some? ==> 1 <= |d.value.value.posts| <= DigestSize && d.value.value.greeting == Greeting(name))
  {
    SelectionSize(posts, sent, excluded, now);
    GreetingAgrees(name);
    var c := Candidates(posts, sent, excluded, now);
    if c != [] {
      assert c[0] in c;
    }
  }

  class Subscriber {
    var name: Option<string>
    var email: string
    var excludedTags: set<string>
    var sentPosts: set<nat>

    constructor (name: Option<string>, email: string, excludedTags: set<string>)
      ensures this.name == name && this.email == email && this.excludedTags == excludedTags
      ensures sentPosts == {}
    {
      this.name := name;
      this.email := email;
      this.excludedTags := excludedTags;
      sentPosts := {};
    }

    /**
     * `send_digest()` over `posts` at time `now`: returns the digest it sends, if any, or
     * the error it raises. Only a digest that goes out is recorded, and then exactly its
     * posts are added to `sent_posts`.
     */
    method SendDigest(posts: seq<Post>, now: int) returns (d: Result<Option<Digest>>)
      modifies this
      ensures d == DigestFor(name, email, old(sentPosts), excludedTags, posts, now)
      ensures d.Ok? && d.value.Some? ==> sentPosts == old(sentPosts) + Pks(d.value.value.posts)
      ensures !(d.Ok? && d.value.Some?) ==> sentPosts == old(sentPosts)
      ensures name == old(name) && email == old(email) && excludedTags == old(excludedTags)
    {
      if Candidates(posts, sentPosts, excludedTags, now) == [] {
        return Ok(None);
      }
      var greeting := GreetingAsWritten(name);
      if greeting.Err? {
        return Err(greeting.error);
      }
      var selected := Selection(posts, sentPosts, excludedTags, now);
      d := Ok(Some(Digest((name, email), greeting.value, selected)));
      sentPosts := sentPosts + Pks(selected);
    }
  }
}
