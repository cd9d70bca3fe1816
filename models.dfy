/** The relational store of app/database/models.py: nine tables, each a map
    from primary key to row, with the foreign keys and delete cascades the
    declarations set up. */
module Models {
  import opened Results

  // ---------------------------------------------------------------------
  // Rows
  // ---------------------------------------------------------------------

  datatype PostRow = PostRow(id: int, userId: int, title: string, body: string)
  datatype CommentRow = CommentRow(id: int, postId: int, name: string, email: string, body: string)
  datatype PhotoRow = PhotoRow(id: int, albumId: int, title: string, url: string, thumbnailUrl: string)
  datatype AlbumRow = AlbumRow(id: int, userId: int, title: string)
  datatype TodoRow = TodoRow(id: int, userId: int, title: string, completed: bool)
  datatype GeoRow = GeoRow(addressUserId: int, lat: string, lng: string)
  datatype AddressRow = AddressRow(userId: int, street: string, suite: string, city: string, zipcode: string)
  datatype CompanyRow = CompanyRow(userId: int, name: string, catchPhrase: string, bs: string)
  datatype UserRow = UserRow(id: int, name: string, username: string, email: string, phone: string, website: string)

  datatype Table = Posts | Comments | Photos | Albums | Todos | Geos | Addresses | Companies | Users

  datatype Row =
    | OfPost(post: PostRow)
    | OfComment(comment: CommentRow)
    | OfPhoto(photo: PhotoRow)
    | OfAlbum(album: AlbumRow)
    | OfTodo(todo: TodoRow)
    | OfGeo(geo: GeoRow)
    | OfAddress(address: AddressRow)
    | OfCompany(company: CompanyRow)
    | OfUser(user: UserRow)

  function TableOf(r: Row): Table
  {
    match r
    case OfPost(_) => Posts
    case OfComment(_) => Comments
    case OfPhoto(_) => Photos
    case OfAlbum(_) => Albums
    case OfTodo(_) => Todos
    case OfGeo(_) => Geos
    case OfAddress(_) => Addresses
    case OfCompany(_) => Companies
    case OfUser(_) => Users
  }

  /** The primary key: `id` for the six id-keyed tables, the foreign key
      itself for geo, address and company. */
  function Key(r: Row): int
  {
    match r
    case OfPost(p) => p.id
    case OfComment(c) => c.id
    case OfPhoto(p) => p.id
    case OfAlbum(a) => a.id
    case OfTodo(t) => t.id
    case OfGeo(g) => g.addressUserId
    case OfAddress(a) => a.userId
    case OfCompany(c) => c.userId
    case OfUser(u) => u.id
  }

  /** The table a row's foreign key points into. Only geo, address and
      company have one; the parent ids of posts, comments, photos, albums
      and todos are plain integers. */
  function ParentTable(r: Row): (r': Option<Table>)
    ensures r'.Some? <==> r.OfGeo? || r.OfAddress? || r.OfCompany?
    ensures r.OfGeo? ==> r' == Some(Addresses)
    ensures r.OfAddress? || r.OfCompany? ==> r' == Some(Users)
  {
    match r
    case OfGeo(_) => Some(Addresses)
    case OfAddress(_) => Some(Users)
    case OfCompany(_) => Some(Users)
    case _ => None
  }

  // ---------------------------------------------------------------------
  // The store and its invariants
  // ---------------------------------------------------------------------

  /** Every table, as a map from primary key to row. */
  type Tables = map<Table, map<int, Row>>

  const AllTables: set<Table> := {Posts, Comments, Photos, Albums, Todos, Geos, Addresses, Companies, Users}

  /** Every table exists and holds its own rows under their primary keys,
      so no table holds two rows with one key. */
  predicate WellKeyed(db: Tables)
  {
    && (forall t: Table :: t in db)
    && (forall t, k :: t in db && k in db[t] ==> TableOf(db[t][k]) == t && Key(db[t][k]) == k)
  }

  /** Referential integrity: the foreign key of every geo, address and
      company row names an existing row of its parent table (the foreign
      key of each is its primary key). */
  predicate Consistent(db: Tables)
  {
    && WellKeyed(db)
    && (forall k :: k in db[Geos] ==> k in db[Addresses])
    && (forall k :: k in db[Addresses] ==> k in db[Users])
    && (forall k :: k in db[Companies] ==> k in db[Users])
  }

  /** The empty store. */
  function Empty(): (db: Tables)
    ensures Consistent(db)
    ensures forall t :: t in AllTables ==> db[t] == map[]
  {
    forall t: Table ensures t in AllTables {
      assert t.Posts? || t.Comments? || t.Photos? || t.Albums? || t.Todos? || t.Geos? || t.Addresses?
        || t.Companies? || t.Users?;
    }
    map t | t in AllTables :: map[]
  }

  /** The tables a delete of a row of `t` reaches: a user takes its address
      and company along, an address takes its geo along. */
  function Cascade(t: Table): (ts: set<Table>)
    ensures t in ts
    ensures Addresses in ts ==> Geos in ts
    ensures Users in ts ==> Addresses in ts && Companies in ts
  {
    match t
    case Users => {Users, Addresses, Companies, Geos}
    case Addresses => {Addresses, Geos}
    case _ => {t}
  }

  /** The rows with keys `ks` deleted from every table in `ts`. Since each
      child row is keyed by its parent's key, the rows a cascade reaches
      are those with the same keys. */
  function RemoveKeys(db: Tables, ts: set<Table>, ks: set<int>): (r: Tables)
    ensures r.Keys == db.Keys
    ensures forall t :: t in db && t !in ts ==> r[t] == db[t]
    ensures forall t :: t in db && t in ts ==> r[t].Keys == db[t].Keys - ks
    ensures forall t, k :: t in r && k in r[t] ==> r[t][k] == db[t][k]
  {
    map t | t in db :: if t in ts then db[t] - ks else db[t]
  }

  /** Whether inserting `r` passes the database's checks: its primary key
      is new and its foreign key, if any, names an existing parent. */
  predicate Insertable(db: Tables, r: Row)
    requires WellKeyed(db)
  {
    && Key(r) !in db[TableOf(r)]
    && (ParentTable(r).Some? ==> Key(r) in db[ParentTable(r).value])
  }

  function Insert(db: Tables, r: Row): (db': Tables)
    requires WellKeyed(db)
    ensures WellKeyed(db')
    ensures db'.Keys == db.Keys
    ensures forall t :: t in db && t != TableOf(r) ==> db'[t] == db[t]
    ensures db'[TableOf(r)].Keys == db[TableOf(r)].Keys + {Key(r)}
    ensures db'[TableOf(r)][Key(r)] == r
  {
    db[TableOf(r) := db[TableOf(r)][Key(r) := r]]
  }

  /** The store after inserting `rows` one after another. */
  function Stored(db: Tables, rows: seq<Row>): (r: Tables)
    requires WellKeyed(db)
    ensures WellKeyed(r) && r.Keys == db.Keys
    decreases |rows|
  {
    if rows == [] then db else Insert(Stored(db, rows[..|rows| - 1]), rows[|rows| - 1])
  }

  // ---------------------------------------------------------------------
  // Properties of the store
  // ---------------------------------------------------------------------

  /** An insert that passes the checks keeps referential integrity, and
      adds exactly one row. */
  lemma InsertConsistent(db: Tables, r: Row)
    requires Consistent(db) && Insertable(db, r)
    ensures Consistent(Insert(db, r))
    ensures |Insert(db, r)[TableOf(r)]| == |db[TableOf(r)]| + 1
  {
    var t := TableOf(r);
    assert Insert(db, r)[t].Keys == db[t].Keys + {Key(r)};
  }

  /** Deleting keys along a cascade keeps referential integrity: no child
      outlives its parent. */
  lemma CascadeConsistent(db: Tables, t: Table, ks: set<int>)
    requires Consistent(db)
    ensures Consistent(RemoveKeys(db, Cascade(t), ks))
  {
  }

  /** The cascade is needed: a consistent store where deleting a user
      without its address leaves the address dangling. */
  lemma NoCascadeOrphans()
    ensures var db := Empty()[Users := map[1 := OfUser(UserRow(1, "n", "u", "e", "p", "w"))]]
                             [Addresses := map[1 := OfAddress(AddressRow(1, "s", "s", "c", "z"))]];
      && Consistent(db)
      && !Consistent(RemoveKeys(db, {Users}, {1}))
  {
    var db := Empty()[Users := map[1 := OfUser(UserRow(1, "n", "u", "e", "p", "w"))]]
                     [Addresses := map[1 := OfAddress(AddressRow(1, "s", "s", "c", "z"))]];
    assert WellKeyed(db) by {
      forall t, k | t in db && k in db[t] ensures TableOf(db[t][k]) == t && Key(db[t][k]) == k {
        assert t == Users || t == Addresses;
      }
    }
    var r := RemoveKeys(db, {Users}, {1});
    assert 1 in r[Addresses] && 1 !in r[Users];
  }

  /** Posts (and the other flat records) carry their parent ids as plain
      integers: a consistent store may hold a post whose user exists
      nowhere. */
  lemma FlatParentsMayDangle()
    ensures var db := Empty()[Posts := map[1 := OfPost(PostRow(1, 42, "t", "b"))]];
      && Consistent(db)
      && 42 !in db[Users]
  {
  }

  /** A user has at most one address and at most one company, and an
      address at most one geo: the child tables are keyed by the parent's
      key. */
  lemma OneChildPerParent(db: Tables, t: Table, k1: int, k2: int)
    requires Consistent(db) && t in {Geos, Addresses, Companies}
    requires k1 in db[t] && k2 in db[t]
    requires ParentKey(db[t][k1]) == ParentKey(db[t][k2])
    ensures k1 == k2
  {
  }

  /** The foreign-key value of a child row. */
  function ParentKey(r: Row): (k: int)
    ensures ParentTable(r).Some? ==> k == Key(r)
  {
    match r
    case OfGeo(g) => g.addressUserId
    case OfAddress(a) => a.userId
    case OfCompany(c) => c.userId
    case _ => Key(r)
  }

  /** Deleting every user empties the user, address, company and geo
      tables; the other tables keep their rows. */
  lemma DeleteAllUsers(db: Tables)
    requires Consistent(db)
    ensures var r := RemoveKeys(db, Cascade(Users), db[Users].Keys);
      && r[Users] == map[] && r[Addresses] == map[] && r[Companies] == map[] && r[Geos] == map[]
      && forall t :: t in db && t !in Cascade(Users) ==> r[t] == db[t]
  {
    var r := RemoveKeys(db, Cascade(Users), db[Users].Keys);
    forall t | t in Cascade(Users) ensures r[t] == map[] {
      assert forall k :: k !in r[t];
    }
  }

  /** Deleting key by key along a cascade is deleting all the keys at once. */
  lemma RemoveKeysTwice(db: Tables, ts: set<Table>, a: set<int>, b: set<int>)
    ensures RemoveKeys(RemoveKeys(db, ts, a), ts, b) == RemoveKeys(db, ts, a + b)
  {
    var l, r := RemoveKeys(RemoveKeys(db, ts, a), ts, b), RemoveKeys(db, ts, a + b);
    forall t | t in db ensures l[t] == r[t] {
      if t in ts {
        assert l[t].Keys == r[t].Keys;
      }
    }
  }

  /** Inserting two runs of rows is inserting their concatenation. */
  lemma {:induction false} StoredAppend(db: Tables, a: seq<Row>, b: seq<Row>)
    requires WellKeyed(db)
    ensures Stored(db, a + b) == Stored(Stored(db, a), b)
    decreases |b|
  {
    if b == [] {
      assert a + b == a;
    } else {
      var b' := b[..|b| - 1];
      var last := b[|b| - 1];
      assert (a + b)[..|a + b| - 1] == a + b';
      assert (a + b)[|a + b| - 1] == last;
      calc {
        Stored(db, a + b);
        Insert(Stored(db, a + b'), last);
        { StoredAppend(db, a, b'); }
        Insert(Stored(Stored(db, a), b'), last);
        Stored(Stored(db, a), b);
      }
    }
  }

  /** The keys the rows of a run have in table `t`. */
  function KeysIn(rows: seq<Row>, t: Table): (ks: set<int>)
    ensures forall i :: 0 <= i < |rows| && TableOf(rows[i]) == t ==> Key(rows[i]) in ks
    ensures forall k :: k in ks ==> exists i :: 0 <= i < |rows| && TableOf(rows[i]) == t && Key(rows[i]) == k
    decreases |rows|
  {
    if rows == [] then {}
    else
      var init := rows[..|rows| - 1];
      assert forall i :: 0 <= i < |init| ==> init[i] == rows[i];
      KeysIn(init, t) + if TableOf(rows[|rows| - 1]) == t then {Key(rows[|rows| - 1])} else {}
  }

  /** The keys of a table after a run of inserts: its old keys and the keys
      of the run's rows for that table. */
  lemma {:induction false} StoredKeys(db: Tables, rows: seq<Row>, t: Table)
    requires WellKeyed(db)
    ensures Stored(db, rows)[t].Keys == db[t].Keys + KeysIn(rows, t)
    decreases |rows|
  {
    if rows != [] {
      StoredKeys(db, rows[..|rows| - 1], t);
    }
  }

  /** A row that no later row of the run replaces is in the table under its
      key. */
  lemma {:induction false} StoredAt(db: Tables, rows: seq<Row>, i: nat)
    requires WellKeyed(db) && i < |rows|
    requires forall j :: i < j < |rows| ==> TableOf(rows[j]) != TableOf(rows[i]) || Key(rows[j]) != Key(rows[i])
    ensures Key(rows[i]) in Stored(db, rows)[TableOf(rows[i])]
    ensures Stored(db, rows)[TableOf(rows[i])][Key(rows[i])] == rows[i]
    decreases |rows|
  {
    if i < |rows| - 1 {
      var init := rows[..|rows| - 1];
      assert init[i] == rows[i];
      StoredAt(db, init, i);
    }
  }

  /** A run of inserts leaves the tables it does not write as they were. */
  lemma {:induction false} StoredElsewhere(db: Tables, rows: seq<Row>, t: Table)
    requires WellKeyed(db)
    requires forall i :: 0 <= i < |rows| ==> TableOf(rows[i]) != t
    ensures Stored(db, rows)[t] == db[t]
    decreases |rows|
  {
    if rows != [] {
      StoredElsewhere(db, rows[..|rows| - 1], t);
    }
  }

  /** Storing a one-row run is inserting that row. */
  lemma StoredOne(db: Tables, rows: seq<Row>)
    requires WellKeyed(db) && |rows| == 1
    ensures Stored(db, rows) == Insert(db, rows[0])
  {
    assert rows[..0] == [];
  }

  /** Storing a four-row run is inserting the rows in order. */
  lemma StoredFour(db: Tables, rows: seq<Row>)
    requires WellKeyed(db) && |rows| == 4
    ensures Stored(db, rows) == Insert(Insert(Insert(Insert(db, rows[0]), rows[1]), rows[2]), rows[3])
  {
    assert rows[..3][..2] == rows[..2] && rows[..2][..1] == rows[..1] && rows[..1][..0] == [];
    assert Stored(db, rows[..1]) == Insert(db, rows[0]);
    assert Stored(db, rows[..2]) == Insert(Stored(db, rows[..1]), rows[1]);
    assert Stored(db, rows[..3]) == Insert(Stored(db, rows[..2]), rows[2]);
    assert rows[..4] == rows;
  }

  /** A run of inserts that writes no row under key `k` of table `t`
      leaves the row stored there. */
  lemma {:induction false} StoredKeeps(db: Tables, rows: seq<Row>, t: Table, k: int)
    requires WellKeyed(db) && k in db[t]
    requires forall j :: 0 <= j < |rows| ==> TableOf(rows[j]) != t || Key(rows[j]) != k
    ensures k in Stored(db, rows)[t] && Stored(db, rows)[t][k] == db[t][k]
    decreases |rows|
  {
    if rows != [] {
      StoredKeeps(db, rows[..|rows| - 1], t, k);
    }
  }
}
