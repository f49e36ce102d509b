/** app/models/base_model.py: `Base.__repr__`, which prints a record's public attributes
    as `<ClassName(k1=v1, k2=v2)>` and never its password hash. An instance's attribute
    dictionary is a sequence of (name, repr of value) pairs in insertion order. */
module BaseModel {
  import opened Strings

  type Attributes = seq<(string, string)>

  const HiddenAttribute := "hashed_password"

  /** The comprehension's condition: private names and the hash are dropped. */
  predicate Shown(name: string) {
    !StartsWith(name, "_") && name != HiddenAttribute
  }

  /** The filtered dictionary, in the original order. */
  function Filtered(attrs: Attributes): Attributes {
    if attrs == [] then []
    else if Shown(attrs[0].0) then [attrs[0]] + Filtered(attrs[1..])
    else Filtered(attrs[1..])
  }

  /** Exactly the shown attributes survive, so neither a private name nor the hash does. */
  lemma {:induction false} FilteredMembers(attrs: Attributes)
    ensures forall p :: p in Filtered(attrs) <==> p in attrs && Shown(p.0)
    ensures forall p :: p in Filtered(attrs) ==> p.0 != HiddenAttribute && !StartsWith(p.0, "_")
    ensures |Filtered(attrs)| <= |attrs|
  {
    if attrs != [] {
      FilteredMembers(attrs[1..]);
      assert attrs == [attrs[0]] + attrs[1..];
    }
  }

  /** Filtering keeps the relative order: it distributes over concatenation. */
  lemma {:induction false} FilteredConcat(a: Attributes, b: Attributes)
    ensures Filtered(a + b) == Filtered(a) + Filtered(b)
  {
    if a == [] {
      assert a + b == b;
    } else {
      assert (a + b)[0] == a[0];
      assert (a + b)[1..] == a[1..] + b;
      FilteredConcat(a[1..], b);
    }
  }

  /** One step of the comprehension: the head is kept exactly when its name is shown. */
  lemma FilteredCons(p: (string, string), rest: Attributes)
    ensures Filtered([p] + rest) == if Shown(p.0) then [p] + Filtered(rest) else Filtered(rest)
  {
    assert ([p] + rest)[0] == p && ([p] + rest)[1..] == rest;
  }

  /** Filtering twice drops nothing more. */
  lemma {:induction false} FilteredIdempotent(attrs: Attributes)
    ensures Filtered(Filtered(attrs)) == Filtered(attrs)
  {
    if attrs != [] {
      FilteredIdempotent(attrs[1..]);
      if Shown(attrs[0].0) {
        var rest := Filtered(attrs[1..]);
        assert ([attrs[0]] + rest)[0] == attrs[0];
        assert ([attrs[0]] + rest)[1..] == rest;
      }
    }
  }

  /** `f"{k}={v!r}"`. */
  function Part(a: (string, string)): string {
    a.0 + "=" + a.1
  }

  function Parts(attrs: Attributes): (r: seq<string>)
    ensures |r| == |attrs|
    ensures forall i :: 0 <= i < |attrs| ==> r[i] == Part(attrs[i])
  {
    if attrs == [] then [] else [Part(attrs[0])] + Parts(attrs[1..])
  }

  /** `f"<{cls_name}({', '.join(parts)})>"` over the filtered attributes. */
  function Repr(className: string, attrs: Attributes): (r: string)
    ensures StartsWith(r, "<" + className + "(")
    ensures |r| == |className| + 4 + |Join(", ", Parts(Filtered(attrs)))| && r[|r| - 2..] == ")>"
    ensures r[|className| + 2..|r| - 2] == Join(", ", Parts(Filtered(attrs)))
    ensures Filtered(attrs) == [] ==> r == "<" + className + "()>"
  {
    var prefix := "<" + className + "(";
    var body := Join(", ", Parts(Filtered(attrs)));
    var r := prefix + body + ")>";
    assert r[..|prefix|] == prefix;
    assert r[|prefix|..|r| - 2] == body;
    r
  }

  /** The printed text depends only on the attributes the filter keeps, so whatever order the
      dictionary is in, neither a private attribute nor the hash reaches it. */
  lemma ReprOfFiltered(className: string, attrs: Attributes)
    ensures Repr(className, attrs) == Repr(className, Filtered(attrs))
  {
    FilteredIdempotent(attrs);
  }

  /** The attribute dictionary of a `UserModel` loaded from the database: the ORM's private
      state, then the columns, each value given by its repr. The order is one possible
      population order; `LoadedUserFiltered` below holds for every order. */
  function UserAttributes(state: string, id: string, name: string, username: string,
                          email: string, hash: string, isMaster: string,
                          createdAt: string, updatedAt: string): Attributes
  {
    [("_sa_instance_state", state), ("id", id), ("name", name), ("username", username),
     ("email", email), ("hashed_password", hash), ("is_master", isMaster),
     ("created_at", createdAt), ("updated_at", updatedAt)]
  }

  /** The public columns of a user, the mixins' id and timestamps included. */
  const UserColumns: set<string> :=
    {"id", "name", "username", "email", "is_master", "created_at", "updated_at"}

  /** A name that does not start with "_" and is not the hash is shown. */
  lemma PublicName(name: string)
    requires |name| > 0 && name[0] != '_' && name != HiddenAttribute
    ensures Shown(name)
  {
    assert name[..1][0] == name[0];
  }

  /** Which of the user's attribute names the filter keeps. */
  lemma UserNamesShown()
    ensures !Shown("_sa_instance_state") && !Shown("hashed_password")
    ensures Shown("id") && Shown("name") && Shown("username") && Shown("email") && Shown("is_master")
    ensures Shown("created_at") && Shown("updated_at")
  {
    assert "_sa_instance_state"[..1] == "_";
    PublicName("id");
    PublicName("name");
    PublicName("username");
    PublicName("email");
    PublicName("is_master");
    PublicName("created_at");
    PublicName("updated_at");
  }

  /** Every public column of a user is shown. */
  lemma ColumnShown(n: string)
    requires n in UserColumns
    ensures Shown(n)
  {
    UserNamesShown();
  }

  /** Whatever order the ORM fills a user's dictionary in, the filter keeps exactly its public
      columns and drops the ORM state and the hash; `FilteredConcat` keeps their order. */
  lemma LoadedUserFiltered(attrs: Attributes)
    requires forall p :: p in attrs ==>
      p.0 in UserColumns || p.0 == "_sa_instance_state" || p.0 == HiddenAttribute
    ensures forall p :: p in Filtered(attrs) <==> p in attrs && p.0 in UserColumns
    ensures forall p :: p in Filtered(attrs) ==> p.0 != HiddenAttribute
  {
    FilteredMembers(attrs);
    assert "_sa_instance_state" !in UserColumns && HiddenAttribute !in UserColumns;
    forall p | p in attrs
      ensures Shown(p.0) <==> p.0 in UserColumns
    {
      if p.0 in UserColumns {
        ColumnShown(p.0);
      } else {
        UserNamesShown();
      }
    }
  }

  /** The last four entries of a user's dictionary: the hash goes, the flag and timestamps stay. */
  lemma FilteredTail(hash: string, isMaster: string, createdAt: string, updatedAt: string)
    ensures Filtered([("hashed_password", hash), ("is_master", isMaster), ("created_at", createdAt),
                      ("updated_at", updatedAt)])
         == [("is_master", isMaster), ("created_at", createdAt), ("updated_at", updatedAt)]
  {
    var hidden, flag := ("hashed_password", hash), ("is_master", isMaster);
    var c, u := ("created_at", createdAt), ("updated_at", updatedAt);
    UserNamesShown();
    FilteredCons(u, []);
    FilteredCons(c, [u]);
    FilteredCons(flag, [c, u]);
    FilteredCons(hidden, [flag, c, u]);
  }

  /** The four leading columns of a user's dictionary are all shown. */
  lemma FilteredHead(id: string, name: string, username: string, email: string)
    ensures Filtered([("id", id), ("name", name), ("username", username), ("email", email)])
         == [("id", id), ("name", name), ("username", username), ("email", email)]
  {
    var a0, a1, a2, a3 := ("id", id), ("name", name), ("username", username), ("email", email);
    UserNamesShown();
    FilteredCons(a3, []);
    FilteredCons(a2, [a3]);
    FilteredCons(a1, [a2, a3]);
    FilteredCons(a0, [a1, a2, a3]);
  }

  /** The user's ORM state and password hash are filtered out; the columns stay in order. */
  lemma FilteredUser(state: string, id: string, name: string, username: string, email: string,
                     hash: string, isMaster: string, createdAt: string, updatedAt: string)
    ensures Filtered(UserAttributes(state, id, name, username, email, hash, isMaster, createdAt, updatedAt))
         == [("id", id), ("name", name), ("username", username), ("email", email),
             ("is_master", isMaster), ("created_at", createdAt), ("updated_at", updatedAt)]
  {
    var attrs := UserAttributes(state, id, name, username, email, hash, isMaster, createdAt, updatedAt);
    var head := [("id", id), ("name", name), ("username", username), ("email", email)];
    var tail := [("hashed_password", hash), ("is_master", isMaster), ("created_at", createdAt),
                 ("updated_at", updatedAt)];
    assert attrs == [attrs[0]] + (head + tail);
    UserNamesShown();
    FilteredCons(attrs[0], head + tail);
    FilteredConcat(head, tail);
    FilteredHead(id, name, username, email);
    FilteredTail(hash, isMaster, createdAt, updatedAt);
  }

  /** Seven parts joined by ", ". */
  lemma JoinSeven(a: string, b: string, c: string, d: string, e: string, f: string, g: string)
    ensures Join(", ", [a, b, c, d, e, f, g])
         == a + ", " + b + ", " + c + ", " + d + ", " + e + ", " + f + ", " + g
  {
    var ps := [a, b, c, d, e, f, g];
    assert ps[1..] == [b, c, d, e, f, g];
    assert [b, c, d, e, f, g][1..] == [c, d, e, f, g];
    assert [c, d, e, f, g][1..] == [d, e, f, g];
    assert [d, e, f, g][1..] == [e, f, g];
    assert [e, f, g][1..] == [f, g];
    assert [f, g][1..] == [g];
    assert Join(", ", [f, g]) == f + ", " + g;
    assert Join(", ", [e, f, g]) == e + ", " + (f + ", " + g);
    assert Join(", ", [d, e, f, g]) == d + ", " + (e + ", " + (f + ", " + g));
    assert Join(", ", [c, d, e, f, g]) == c + ", " + (d + ", " + (e + ", " + (f + ", " + g)));
    assert Join(", ", [b, c, d, e, f, g]) == b + ", " + (c + ", " + (d + ", " + (e + ", " + (f + ", " + g))));
  }

  /** A loaded user prints its id, name, username, email, flag and timestamps, in dictionary
      order, and neither the ORM state nor the password hash. */
  lemma UserReprHidesHash(state: string, id: string, name: string, username: string, email: string,
                          hash: string, isMaster: string, createdAt: string, updatedAt: string)
    ensures Repr("UserModel", UserAttributes(state, id, name, username, email, hash, isMaster, createdAt, updatedAt))
         == "<" + "UserModel" + "("
            + (("id" + "=" + id) + ", " + ("name" + "=" + name) + ", "
               + ("username" + "=" + username) + ", " + ("email" + "=" + email) + ", "
               + ("is_master" + "=" + isMaster) + ", " + ("created_at" + "=" + createdAt) + ", "
               + ("updated_at" + "=" + updatedAt))
            + ")>"
  {
    var a0, a1, a2, a3 := ("id", id), ("name", name), ("username", username), ("email", email);
    var flag, c, u := ("is_master", isMaster), ("created_at", createdAt), ("updated_at", updatedAt);
    var attrs := UserAttributes(state, id, name, username, email, hash, isMaster, createdAt, updatedAt);
    var shown := [a0, a1, a2, a3, flag, c, u];
    FilteredUser(state, id, name, username, email, hash, isMaster, createdAt, updatedAt);
    assert Filtered(attrs) == shown;
    var ps := [Part(a0), Part(a1), Part(a2), Part(a3), Part(flag), Part(c), Part(u)];
    assert Parts(shown) == ps;
    JoinSeven(Part(a0), Part(a1), Part(a2), Part(a3), Part(flag), Part(c), Part(u));
    var j := Join(", ", ps);
    assert Repr("UserModel", attrs) == "<" + "UserModel" + "(" + j + ")>";
  }
}
