/** The two stores the repositories work against: the relational database
    (users, posts, likes) and the Redis cache holding verification codes. */
module Store {
  import opened Schemas

  /** The database as three tables updated in place. */
  class Database {
    var users: map<Uuid, UserRow>
    var posts: map<Uuid, PostRow>
    var likes: set<Like>

    /** The integrity the schema keeps: every post's author is a user, and
        no two users share an email address. */
    ghost predicate Valid()
      reads this
    {
      && (forall id :: id in posts ==> posts[id].userId in users)
      && (forall a, b :: a in users && b in users && users[a].email == users[b].email ==> a == b)
    }
  }

  /** The Redis key under which a user's pending verification code lives. */
  function VerifyKey(id: Uuid): string {
    "verify:" + id
  }

  /** Distinct users never share a key, so touching one user's code leaves
      every other user's code alone. */
  lemma VerifyKeyInjective(a: Uuid, b: Uuid)
    ensures VerifyKey(a) == VerifyKey(b) <==> a == b
  {
    if VerifyKey(a) == VerifyKey(b) {
      assert a == VerifyKey(a)[7..] == VerifyKey(b)[7..] == b;
    }
  }

  /** The Redis cache as a map from key to value. */
  class CodeCache {
    var entries: map<string, string>

    /** Expiry of a key when its time to live runs out: the entry goes away
        and nothing else changes. */
    method Expire(key: string)
      modifies this
      ensures entries == old(entries) - {key}
    {
      entries := entries - {key};
    }
  }
}
