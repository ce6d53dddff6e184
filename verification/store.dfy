/**
 The user table and the login session, as far as registration uses them.
 A commit either appends the new row or is rolled back, leaving the table
 as it was. The table keeps the primary key and the mobile number unique,
 so a commit that would duplicate either is refused like any other failure.
 */
module Store {
  import opened Wrappers

  datatype User = User(id: nat, mobile: string, nickName: string, lastLogin: int)

  /** What registration writes into the session after a successful commit. */
  datatype Session = Session(userId: nat, mobile: string, nickName: string)

  predicate IdTaken(users: seq<User>, id: nat)
  {
    exists i :: 0 <= i < |users| && users[i].id == id
  }

  predicate MobileTaken(users: seq<User>, mobile: string)
  {
    exists i :: 0 <= i < |users| && users[i].mobile == mobile
  }

  /** The table's unique constraints: no two rows share an id or a mobile number. */
  predicate UniqueKeys(users: seq<User>)
  {
    forall i, j :: 0 <= i < j < |users| ==> users[i].id != users[j].id && users[i].mobile != users[j].mobile
  }

  /**
   `db.session.add(u); db.session.commit()`, and `db.session.rollback()` when
   that raises. `fails` stands for any failure the database reports for
   reasons outside the table's contents. None means rolled back.
   */
  function Commit(users: seq<User>, u: User, fails: bool): (r: Option<seq<User>>)
    ensures r.Some? <==> !fails && !IdTaken(users, u.id) && !MobileTaken(users, u.mobile)
    ensures r.Some? ==> |r.value| == |users| + 1 && r.value[..|users|] == users && r.value[|users|] == u
  {
    if fails || IdTaken(users, u.id) || MobileTaken(users, u.mobile) then None
    else Some(users + [u])
  }

  /** A commit keeps the unique constraints of the table. */
  lemma CommitKeepsUniqueKeys(users: seq<User>, u: User, fails: bool)
    requires UniqueKeys(users)
    requires Commit(users, u, fails).Some?
    ensures UniqueKeys(Commit(users, u, fails).value)
  {
    var r := Commit(users, u, fails).value;
    forall i, j | 0 <= i < j < |r|
      ensures r[i].id != r[j].id && r[i].mobile != r[j].mobile
    {
      if j == |users| {
        assert r[i] == users[i];
      } else {
        assert r[i] == users[i] && r[j] == users[j];
      }
    }
  }
}
