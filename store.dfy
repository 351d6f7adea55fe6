/**
 * The database behind the services, as the services observe it through the
 * Prisma client: three tables held in insertion order, unique indexes on
 * the ids, on `nik` and on `email`, foreign keys from each checkup to its
 * elder (cascading on delete) and to its author (restricting delete).
 * A write that breaks a constraint fails with the client's error code and
 * leaves the tables unchanged.
 */
module Store {
  import opened Wrappers
  import opened Errors
  import opened Records
  import opened Tables

  /** P2002: a unique index refused the write; `target` names the column. */
  function UniqueViolation(column: string): (t: Thrown)
    ensures t.PrismaKnownRequest? && t.code == "P2002" && t.target == Some([column])
  {
    PrismaKnownRequest("P2002", Some([column]), "Unique constraint failed on the fields: (`" + column + "`)")
  }

  /** P2025: the row an update or delete addresses does not exist. */
  function RecordNotFound(): (t: Thrown)
    ensures t.PrismaKnownRequest? && t.code == "P2025"
  {
    PrismaKnownRequest("P2025", None, "Record to update or delete does not exist.")
  }

  /** P2003: a foreign key refused the write. */
  function ForeignKeyViolation(column: string): (t: Thrown)
    ensures t.PrismaKnownRequest? && t.code == "P2003" && t.target.None?
  {
    PrismaKnownRequest("P2003", None, "Foreign key constraint violated on the field: `" + column + "`")
  }

  class Db {
    var users: seq<User>
    var lansia: seq<Lansia>
    var checkups: seq<Pemeriksaan>

    /** The schema's constraints, which every committed state satisfies. */
    predicate Valid()
      reads this
    {
      Unique(users, UserId) && Unique(users, UserEmail)
      && Unique(lansia, LansiaId) && Unique(lansia, LansiaNik)
      && Unique(checkups, CheckupId)
      && (forall c | c in checkups :: c.lansiaId in Keys(lansia, LansiaId))
      && (forall c | c in checkups :: c.createdBy in Keys(users, UserId))
    }

    constructor ()
      ensures Valid() && users == [] && lansia == [] && checkups == []
    {
      users, lansia, checkups := [], [], [];
    }

    /** `prisma.lansia.create`. */
    method InsertLansia(row: Lansia) returns (r: Result<Lansia, Thrown>)
      requires Valid()
      modifies this
      ensures Valid()
      ensures row.id in old(Keys(lansia, LansiaId)) ==> r == Err(UniqueViolation("id"))
      ensures (row.id !in old(Keys(lansia, LansiaId)) && row.nik in old(Keys(lansia, LansiaNik)))
        ==> r == Err(UniqueViolation("nik"))
      ensures row.id !in old(Keys(lansia, LansiaId)) && row.nik !in old(Keys(lansia, LansiaNik)) ==> r.Ok?
      ensures r.Err? ==> unchanged(this)
      ensures r.Ok? ==> (r.value == row && lansia == old(lansia) + [row]
        && users == old(users) && checkups == old(checkups))
    {
      if row.id in Keys(lansia, LansiaId) {
        return Err(UniqueViolation("id"));
      }
      if row.nik in Keys(lansia, LansiaNik) {
        return Err(UniqueViolation("nik"));
      }
      AppendUnique(lansia, row, LansiaId);
      AppendUnique(lansia, row, LansiaNik);
      AppendKeys(lansia, row, LansiaId);
      lansia := lansia + [row];
      r := Ok(row);
    }

    /** `prisma.lansia.update` on the row with id `id`. */
    method UpdateLansia(id: string, patch: LansiaPatch, now: int) returns (r: Result<Lansia, Thrown>)
      requires Valid()
      modifies this
      ensures Valid()
      ensures id !in old(Keys(lansia, LansiaId)) ==> r == Err(RecordNotFound()) && unchanged(this)
      ensures id in old(Keys(lansia, LansiaId)) ==>
        var i := IndexOf(old(lansia), LansiaId, id);
        var row := PatchLansia(old(lansia)[i], patch, now);
        if exists j | 0 <= j < |old(lansia)| && j != i :: old(lansia)[j].nik == row.nik
        then r == Err(UniqueViolation("nik")) && unchanged(this)
        else r == Ok(row) && lansia == old(lansia)[i := row] && users == old(users) && checkups == old(checkups)
    {
      var i := IndexOf(lansia, LansiaId, id);
      if i == -1 {
        return Err(RecordNotFound());
      }
      var row := PatchLansia(lansia[i], patch, now);
      var j := IndexOf(lansia, LansiaNik, row.nik);
      if j != -1 && j != i {
        return Err(UniqueViolation("nik"));
      }
      forall k | 0 <= k < |lansia| && k != i
        ensures lansia[k].nik != row.nik
      {
        if lansia[k].nik == row.nik {
          IndexOfUnique(lansia, LansiaNik, k);
        }
      }
      ReplaceUnique(lansia, i, row, LansiaId);
      ReplaceUnique(lansia, i, row, LansiaNik);
      ReplaceKeys(lansia, i, row, LansiaId);
      lansia := lansia[i := row];
      r := Ok(row);
    }

    /** `prisma.lansia.delete`: the elder goes, and with it every checkup of that elder. */
    method DeleteLansia(id: string) returns (r: Result<(), Thrown>)
      requires Valid()
      modifies this
      ensures Valid()
      ensures id !in old(Keys(lansia, LansiaId)) ==> r == Err(RecordNotFound()) && unchanged(this)
      ensures id in old(Keys(lansia, LansiaId)) ==>
        r.Ok? && lansia == RemoveAt(old(lansia), IndexOf(old(lansia), LansiaId, id))
        && checkups == Filter(old(checkups), (c: Pemeriksaan) => c.lansiaId != id)
        && users == old(users)
    {
      var i := IndexOf(lansia, LansiaId, id);
      if i == -1 {
        return Err(RecordNotFound());
      }
      var keep := (c: Pemeriksaan) => c.lansiaId != id;
      RemoveAtUnique(lansia, i, LansiaId);
      RemoveAtUnique(lansia, i, LansiaNik);
      RemoveAtKeysUnique(lansia, i, LansiaId);
      FilterUnique(checkups, keep, CheckupId);
      lansia := RemoveAt(lansia, i);
      checkups := Filter(checkups, keep);
      r := Ok(());
    }

    /** `prisma.user.create`. */
    method InsertUser(row: User) returns (r: Result<User, Thrown>)
      requires Valid()
      modifies this
      ensures Valid()
      ensures row.id in old(Keys(users, UserId)) ==> r == Err(UniqueViolation("id"))
      ensures (row.id !in old(Keys(users, UserId)) && row.email in old(Keys(users, UserEmail)))
        ==> r == Err(UniqueViolation("email"))
      ensures row.id !in old(Keys(users, UserId)) && row.email !in old(Keys(users, UserEmail)) ==> r.Ok?
      ensures r.Err? ==> unchanged(this)
      ensures r.Ok? ==> (r.value == row && users == old(users) + [row]
        && lansia == old(lansia) && checkups == old(checkups))
    {
      if row.id in Keys(users, UserId) {
        return Err(UniqueViolation("id"));
      }
      if row.email in Keys(users, UserEmail) {
        return Err(UniqueViolation("email"));
      }
      AppendUnique(users, row, UserId);
      AppendUnique(users, row, UserEmail);
      AppendKeys(users, row, UserId);
      users := users + [row];
      r := Ok(row);
    }

    /** `prisma.user.update` on the row with id `id`. */
    method UpdateUser(id: string, patch: UserPatch, now: int) returns (r: Result<User, Thrown>)
      requires Valid()
      modifies this
      ensures Valid()
      ensures id !in old(Keys(users, UserId)) ==> r == Err(RecordNotFound()) && unchanged(this)
      ensures id in old(Keys(users, UserId)) ==>
        var i := IndexOf(old(users), UserId, id);
        var row := PatchUser(old(users)[i], patch, now);
        if exists j | 0 <= j < |old(users)| && j != i :: old(users)[j].email == row.email
        then r == Err(UniqueViolation("email")) && unchanged(this)
        else r == Ok(row) && users == old(users)[i := row] && lansia == old(lansia) && checkups == old(checkups)
    {
      var i := IndexOf(users, UserId, id);
      if i == -1 {
        return Err(RecordNotFound());
      }
      var row := PatchUser(users[i], patch, now);
      var j := IndexOf(users, UserEmail, row.email);
      if j != -1 && j != i {
        return Err(UniqueViolation("email"));
      }
      forall k | 0 <= k < |users| && k != i
        ensures users[k].email != row.email
      {
        if users[k].email == row.email {
          IndexOfUnique(users, UserEmail, k);
        }
      }
      ReplaceUnique(users, i, row, UserId);
      ReplaceUnique(users, i, row, UserEmail);
      ReplaceKeys(users, i, row, UserId);
      users := users[i := row];
      r := Ok(row);
    }

    /** `prisma.user.delete`: refused while a checkup still names the user as its author. */
    method DeleteUser(id: string) returns (r: Result<(), Thrown>)
      requires Valid()
      modifies this
      ensures Valid()
      ensures id !in old(Keys(users, UserId)) ==> r == Err(RecordNotFound()) && unchanged(this)
      ensures (id in old(Keys(users, UserId)) && id in old(Keys(checkups, CheckupAuthor)))
        ==> r == Err(ForeignKeyViolation("createdBy")) && unchanged(this)
      ensures (id in old(Keys(users, UserId)) && id !in old(Keys(checkups, CheckupAuthor)))
        ==> (r.Ok? && users == RemoveAt(old(users), IndexOf(old(users), UserId, id))
             && lansia == old(lansia) && checkups == old(checkups))
    {
      var i := IndexOf(users, UserId, id);
      if i == -1 {
        return Err(RecordNotFound());
      }
      if id in Keys(checkups, CheckupAuthor) {
        return Err(ForeignKeyViolation("createdBy"));
      }
      RemoveAtUnique(users, i, UserId);
      RemoveAtUnique(users, i, UserEmail);
      RemoveAtKeysUnique(users, i, UserId);
      users := RemoveAt(users, i);
      r := Ok(());
    }

    /** `prisma.pemeriksaan.create`: both foreign keys must name existing rows. */
    method InsertCheckup(row: Pemeriksaan) returns (r: Result<Pemeriksaan, Thrown>)
      requires Valid()
      modifies this
      ensures Valid()
      ensures row.id in old(Keys(checkups, CheckupId)) ==> r == Err(UniqueViolation("id"))
      ensures (row.id !in old(Keys(checkups, CheckupId)) && row.createdBy !in old(Keys(users, UserId)))
        ==> r == Err(ForeignKeyViolation("createdBy"))
      ensures (row.id !in old(Keys(checkups, CheckupId)) && row.createdBy in old(Keys(users, UserId))
               && row.lansiaId !in old(Keys(lansia, LansiaId)))
        ==> r == Err(ForeignKeyViolation("lansiaId"))
      ensures (row.id !in old(Keys(checkups, CheckupId)) && row.createdBy in old(Keys(users, UserId))
               && row.lansiaId in old(Keys(lansia, LansiaId))) ==> r.Ok?
      ensures r.Err? ==> unchanged(this)
      ensures r.Ok? ==> (r.value == row && checkups == old(checkups) + [row]
        && users == old(users) && lansia == old(lansia))
    {
      if row.id in Keys(checkups, CheckupId) {
        return Err(UniqueViolation("id"));
      }
      if row.createdBy !in Keys(users, UserId) {
        return Err(ForeignKeyViolation("createdBy"));
      }
      if row.lansiaId !in Keys(lansia, LansiaId) {
        return Err(ForeignKeyViolation("lansiaId"));
      }
      AppendUnique(checkups, row, CheckupId);
      checkups := checkups + [row];
      r := Ok(row);
    }

    /** `prisma.pemeriksaan.update` on the row with id `id`. */
    method UpdateCheckup(id: string, patch: CheckupPatch, now: int) returns (r: Result<Pemeriksaan, Thrown>)
      requires Valid()
      modifies this
      ensures Valid()
      ensures id !in old(Keys(checkups, CheckupId)) ==> r == Err(RecordNotFound()) && unchanged(this)
      ensures id in old(Keys(checkups, CheckupId)) ==>
        var i := IndexOf(old(checkups), CheckupId, id);
        var row := PatchCheckup(old(checkups)[i], patch, now);
        r == Ok(row) && checkups == old(checkups)[i := row] && users == old(users) && lansia == old(lansia)
    {
      var i := IndexOf(checkups, CheckupId, id);
      if i == -1 {
        return Err(RecordNotFound());
      }
      var row := PatchCheckup(checkups[i], patch, now);
      ReplaceUnique(checkups, i, row, CheckupId);
      checkups := checkups[i := row];
      r := Ok(row);
    }

    /** `prisma.pemeriksaan.delete`. */
    method DeleteCheckup(id: string) returns (r: Result<(), Thrown>)
      requires Valid()
      modifies this
      ensures Valid()
      ensures id !in old(Keys(checkups, CheckupId)) ==> r == Err(RecordNotFound()) && unchanged(this)
      ensures id in old(Keys(checkups, CheckupId)) ==>
        r.Ok? && checkups == RemoveAt(old(checkups), IndexOf(old(checkups), CheckupId, id))
        && users == old(users) && lansia == old(lansia)
    {
      var i := IndexOf(checkups, CheckupId, id);
      if i == -1 {
        return Err(RecordNotFound());
      }
      RemoveAtUnique(checkups, i, CheckupId);
      checkups := RemoveAt(checkups, i);
      r := Ok(());
    }
  }
}
