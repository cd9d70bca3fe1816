/** The data-access objects of app/database/dao.py. A `Session` holds the
    committed contents of the store; each DAO works on one model's table
    through it. `PostDAO`, `CommentDAO`, `PhotoDAO`, `AlbumDAO`, `TodoDAO`
    and `UserDAO` are `BaseDao` over `Posts`, `Comments`, `Photos`,
    `Albums`, `Todos` and `Users`. */
module Dao {
  import opened Results
  import opened Models

  /** Why a commit is refused: the primary key is taken, or the foreign key
      names no parent row. */
  datatype DbError = DuplicateKey(table: Table, key: int) | MissingParent(table: Table, key: int)

  /** What the database reports for an insert of `r`, if it refuses it. */
  function InsertError(db: Tables, r: Row): (e: Option<DbError>)
    requires WellKeyed(db)
    ensures e.None? <==> Insertable(db, r)
  {
    if Key(r) in db[TableOf(r)] then Some(DuplicateKey(TableOf(r), Key(r)))
    else if ParentTable(r).Some? && Key(r) !in db[ParentTable(r).value] then Some(MissingParent(ParentTable(r).value, Key(r)))
    else None
  }

  /** The rows of a user graph in the order the unit of work flushes them
      (see `UserFlushParentsFirst`). */
  function UserFlushOrder(user: UserRow, address: AddressRow, company: CompanyRow, geo: GeoRow): seq<Row>
  {
    [OfUser(user), OfAddress(address), OfCompany(company), OfGeo(geo)]
  }

  /** The flush order holds exactly the four rows handed to `add_all`, and
      puts every row after the rows of the table its foreign key names. */
  lemma UserFlushParentsFirst(user: UserRow, address: AddressRow, company: CompanyRow, geo: GeoRow)
    ensures var r := UserFlushOrder(user, address, company, geo);
      && multiset(r) == multiset{OfGeo(geo), OfAddress(address), OfCompany(company), OfUser(user)}
      && forall i, j :: 0 <= i < |r| && 0 <= j < |r| && ParentTable(r[i]) == Some(TableOf(r[j])) ==> j < i
  {
  }

  /** Inserting rows one after another, each checked against the store the
      previous ones produced; the first refused row refuses them all. */
  function InsertAll(db: Tables, rows: seq<Row>): (r: Result<Tables, DbError>)
    requires Consistent(db)
    ensures r.Ok? ==> Consistent(r.value) && r.value.Keys == db.Keys
    ensures r.Ok? ==> forall t :: t in db && (forall i :: 0 <= i < |rows| ==> TableOf(rows[i]) != t) ==> r.value[t] == db[t]
    decreases |rows|
  {
    if rows == [] then Ok(db)
    else match InsertError(db, rows[0])
      case Some(e) => Err(e)
      case None =>
        InsertConsistent(db, rows[0]);
        InsertAll(Insert(db, rows[0]), rows[1..])
  }

  /** Some element of a non-empty set. */
  method Choose<T>(s: set<T>) returns (x: T)
    requires s != {}
    ensures x in s
  {
    x :| x in s;
  }

  class Session {
    /** The committed contents of every table. */
    var tables: Tables

    ghost predicate Valid()
      reads this
    {
      Consistent(tables)
    }

    constructor (db: Tables)
      requires Consistent(db)
      ensures Valid() && tables == db
    {
      tables := db;
    }
  }

  class BaseDao {
    const session: Session
    const model: Table

    constructor (session: Session, model: Table)
      ensures this.session == session && this.model == model
    {
      this.session := session;
      this.model := model;
    }

    /** `create(entity)`: add and commit. The commit either stores exactly
        the one new row and returns it, or is refused and changes nothing. */
    method Create(entity: Row) returns (r: Result<Row, DbError>)
      requires session.Valid()
      modifies session
      ensures session.Valid()
      ensures r.Ok? <==> Insertable(old(session.tables), entity)
      ensures r.Ok? ==> r.value == entity && session.tables == Insert(old(session.tables), entity)
      ensures r.Err? ==> session.tables == old(session.tables) && Some(r.error) == InsertError(old(session.tables), entity)
    {
      var db := session.tables;
      var e := InsertError(db, entity);
      if e.Some? {
        return Err(e.value);
      }
      InsertConsistent(db, entity);
      session.tables := Insert(db, entity);
      return Ok(entity);
    }

    /** `delete_all()`: select the model's rows, delete them one by one (the
        deletes cascade to child rows), then commit once. */
    method DeleteAll()
      requires session.Valid()
      modifies session
      ensures session.Valid()
      ensures session.tables == RemoveKeys(old(session.tables), Cascade(model), old(session.tables)[model].Keys)
      ensures session.tables[model] == map[]
    {
      var db := session.tables;
      var selected := db[model].Keys;
      var pending := db;
      var left := selected;
      assert pending == RemoveKeys(db, Cascade(model), {}) by {
        var e := RemoveKeys(db, Cascade(model), {});
        forall t | t in db ensures e[t] == db[t] {
          assert e[t].Keys == db[t].Keys;
        }
      }
      while left != {}
        invariant left <= selected
        invariant pending == RemoveKeys(db, Cascade(model), selected - left)
        decreases |left|
      {
        var k := Choose(left);
        RemoveKeysTwice(db, Cascade(model), selected - left, {k});
        assert (selected - left) + {k} == selected - (left - {k});
        pending := RemoveKeys(pending, Cascade(model), {k});
        left := left - {k};
      }
      CascadeConsistent(db, model, selected);
      assert selected - left == selected;
      session.tables := pending;
      assert forall k :: k !in pending[model];
    }

    /** `UserDAO.create_user`: add the geo, address, company and user rows
        and commit them together: all four are stored, or none is. */
    method CreateUser(user: UserRow, address: AddressRow, company: CompanyRow, geo: GeoRow)
      returns (r: Result<UserRow, DbError>)
      requires model == Users && session.Valid()
      modifies session
      ensures session.Valid()
      ensures InsertAll(old(session.tables), UserFlushOrder(user, address, company, geo)).Ok? <==> r.Ok?
      ensures r.Ok? ==> r.value == user && session.tables == InsertAll(old(session.tables), UserFlushOrder(user, address, company, geo)).value
      ensures r.Err? ==> session.tables == old(session.tables)
    {
      var result := InsertAll(session.tables, UserFlushOrder(user, address, company, geo));
      if result.Err? {
        return Err(result.error);
      }
      session.tables := result.value;
      return Ok(user);
    }
  }

  /** An insert the store accepts is followed by the rest of the rows. */
  lemma InsertAllStep(db: Tables, rows: seq<Row>)
    requires Consistent(db) && rows != [] && Insertable(db, rows[0])
    ensures Consistent(Insert(db, rows[0]))
    ensures InsertAll(db, rows) == InsertAll(Insert(db, rows[0]), rows[1..])
  {
    InsertConsistent(db, rows[0]);
  }

  /** Four rows each accepted by the store the previous ones produced. */
  lemma InsertAllFour(db: Tables, rows: seq<Row>)
    requires Consistent(db) && |rows| == 4
    requires Insertable(db, rows[0])
    requires Insertable(Insert(db, rows[0]), rows[1])
    requires Insertable(Insert(Insert(db, rows[0]), rows[1]), rows[2])
    requires Insertable(Insert(Insert(Insert(db, rows[0]), rows[1]), rows[2]), rows[3])
    ensures InsertAll(db, rows) == Ok(Insert(Insert(Insert(Insert(db, rows[0]), rows[1]), rows[2]), rows[3]))
  {
    var d1 := Insert(db, rows[0]);
    var d2 := Insert(d1, rows[1]);
    var d3 := Insert(d2, rows[2]);
    InsertAllStep(db, rows);
    InsertAllStep(d1, rows[1..]);
    InsertAllStep(d2, rows[2..]);
    InsertAllStep(d3, rows[3..]);
    assert rows[1..][1..] == rows[2..] && rows[2..][1..] == rows[3..] && rows[3..][1..] == [];
  }

  /** A user graph whose four rows share the user's id goes in when that id
      is new: the user, address, company and geo tables each gain one row. */
  lemma UserGraphAccepted(db: Tables, user: UserRow, address: AddressRow, company: CompanyRow, geo: GeoRow)
    requires Consistent(db) && user.id !in db[Users]
    requires address.userId == user.id && company.userId == user.id && geo.addressUserId == user.id
    ensures InsertAll(db, UserFlushOrder(user, address, company, geo)) ==
      Ok(Insert(Insert(Insert(Insert(db, OfUser(user)), OfAddress(address)), OfCompany(company)), OfGeo(geo)))
  {
    var rows := UserFlushOrder(user, address, company, geo);
    var d1 := Insert(db, rows[0]);
    var d2 := Insert(d1, rows[1]);
    var d3 := Insert(d2, rows[2]);
    assert user.id !in db[Addresses] && user.id !in db[Companies] && user.id !in db[Geos];
    assert d1[Addresses] == db[Addresses] && d1[Companies] == db[Companies] && d1[Geos] == db[Geos];
    assert Insertable(d1, rows[1]);
    assert d2[Companies] == db[Companies] && d2[Geos] == db[Geos];
    assert Insertable(d2, rows[2]);
    assert d3[Geos] == db[Geos];
    assert Insertable(d3, rows[3]);
    InsertAllFour(db, rows);
  }

  /** ... and is refused, leaving everything as it was, when the id is taken. */
  lemma UserGraphRefused(db: Tables, user: UserRow, address: AddressRow, company: CompanyRow, geo: GeoRow)
    requires Consistent(db) && user.id in db[Users]
    ensures InsertAll(db, UserFlushOrder(user, address, company, geo)) == Err(DuplicateKey(Users, user.id))
  {
  }
}
