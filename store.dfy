/** The metadata store of db.py: the `files` table, keyed by token, as a map. */
module Store {
  import opened Common

  /** One row of the `files` table (the columns of the CREATE TABLE statement). */
  datatype Row = Row(
    token: string,
    sha512: string,
    originalName: string,
    sizeBytes: int,
    storedPath: string,
    createdAt: int,
    expiresAt: int)

  /** `(token, stored_path)` as returned by `delete_expired`. */
  type ExpiredRow = (string, string)

  /** `token` is the primary key: every row sits under its own token. */
  predicate KeyedByToken(rows: map<string, Row>)
  {
    forall t :: t in rows ==> rows[t].token == t
  }

  /** What `get_file_by_token` finds. */
  function Lookup(rows: map<string, Row>, token: string): (r: Option<Row>)
    requires KeyedByToken(rows)
    ensures r.Some? <==> token in rows
    ensures r.Some? ==> r.value.token == token && r.value == rows[token]
  {
    if token in rows then Some(rows[token]) else None
  }

  /** A row inserted under a fresh token is what a later lookup of that token
      finds, field for field; every other token finds what it found before. */
  lemma InsertThenLookup(rows: map<string, Row>, r: Row)
    requires KeyedByToken(rows) && r.token !in rows
    ensures KeyedByToken(rows[r.token := r])
    ensures Lookup(rows[r.token := r], r.token) == Some(r)
    ensures forall t :: t != r.token ==> Lookup(rows[r.token := r], t) == Lookup(rows, t)
  {
  }

  /** The rows `delete_expired(now)` selects: `expires_at <= now`, each as its
      token and stored path. */
  function ExpiredRows(rows: map<string, Row>, now: int): (r: set<ExpiredRow>)
    ensures forall t, p :: (t, p) in r <==> t in rows && rows[t].expiresAt <= now && p == rows[t].storedPath
  {
    set t | t in rows && rows[t].expiresAt <= now :: (t, rows[t].storedPath)
  }

  /** The table left behind by `delete_expired(now)`. */
  function Unexpired(rows: map<string, Row>, now: int): (m: map<string, Row>)
    ensures forall t :: t in m <==> t in rows && rows[t].expiresAt > now
    ensures forall t :: t in m ==> m[t] == rows[t]
  {
    map t | t in rows && rows[t].expiresAt > now :: rows[t]
  }

  /** Every row is either reported and removed, or kept: never both, never neither. */
  lemma DeleteExpiredPartitions(rows: map<string, Row>, now: int)
    ensures forall t :: t in rows ==>
      (t in Unexpired(rows, now) <==> (t, rows[t].storedPath) !in ExpiredRows(rows, now))
    ensures forall e :: e in ExpiredRows(rows, now) ==> e.0 in rows && e.0 !in Unexpired(rows, now)
  {
  }

  /** A second `delete_expired(now)` with nothing inserted in between finds nothing
      and leaves the table as it is. */
  lemma DeleteExpiredIdempotent(rows: map<string, Row>, now: int)
    ensures ExpiredRows(Unexpired(rows, now), now) == {}
    ensures Unexpired(Unexpired(rows, now), now) == Unexpired(rows, now)
  {
  }

  /** Reaping at `now1` and then at a later `now2` leaves what reaping at `now2` alone leaves. */
  lemma DeleteExpiredLater(rows: map<string, Row>, now1: int, now2: int)
    requires now1 <= now2
    ensures Unexpired(Unexpired(rows, now1), now2) == Unexpired(rows, now2)
  {
  }

  /** Once every row has been visited, the loop of `DeleteExpired` has kept the
      unexpired rows and reported exactly the expired ones. */
  lemma VisitedAll(original: map<string, Row>, rows: map<string, Row>, expired: seq<ExpiredRow>, now: int)
    requires forall t :: t in rows <==> t in original && original[t].expiresAt > now
    requires forall t :: t in rows ==> rows[t] == original[t]
    requires forall i :: 0 <= i < |expired| ==>
      expired[i].0 in original && original[expired[i].0].expiresAt <= now &&
      expired[i].1 == original[expired[i].0].storedPath
    requires forall t :: t in original && original[t].expiresAt <= now ==> (t, original[t].storedPath) in expired
    ensures rows == Unexpired(original, now)
    ensures (set i | 0 <= i < |expired| :: expired[i]) == ExpiredRows(original, now)
  {
    forall e | e in ExpiredRows(original, now)
      ensures e in (set i | 0 <= i < |expired| :: expired[i])
    {
      var i :| 0 <= i < |expired| && expired[i] == e;
    }
  }

  /** The `files` table. */
  class MetadataStore {
    var rows: map<string, Row>

    ghost predicate Valid()
      reads this
    {
      KeyedByToken(rows)
    }

    constructor ()
      ensures Valid() && rows == map[]
    {
      rows := map[];
    }

    /** `insert_file`: adds one row; the primary key refuses a token already present. */
    method InsertFile(token: string, sha512: string, originalName: string, sizeBytes: int,
                      storedPath: string, createdAt: int, expiresAt: int) returns (r: Outcome)
      requires Valid()
      modifies this
      ensures Valid()
      ensures token in old(rows) ==> r == Fail(DuplicateToken(token)) && rows == old(rows)
      ensures token !in old(rows) ==>
                r == Pass &&
                rows == old(rows)[token := Row(token, sha512, originalName, sizeBytes, storedPath, createdAt, expiresAt)]
    {
      if token in rows {
        r := Fail(DuplicateToken(token));
      } else {
        rows := rows[token := Row(token, sha512, originalName, sizeBytes, storedPath, createdAt, expiresAt)];
        r := Pass;
      }
    }

    /** `get_file_by_token`: the row stored under `token`, or nothing. */
    method GetFileByToken(token: string) returns (row: Option<Row>)
      requires Valid()
      ensures row.Some? <==> token in rows
      ensures row.Some? ==> row.value == rows[token] && row.value.token == token
    {
      row := if token in rows then Some(rows[token]) else None;
    }

    /** `delete_expired(now)`, in an unspecified order: every row is visited once;
        an expired one is reported and dropped. */
    method DeleteExpired(now: int) returns (expired: seq<ExpiredRow>)
      requires Valid()
      modifies this
      ensures Valid()
      ensures rows == Unexpired(old(rows), now)
      ensures (set i | 0 <= i < |expired| :: expired[i]) == ExpiredRows(old(rows), now)
      ensures forall i, j :: 0 <= i < j < |expired| ==> expired[i].0 != expired[j].0
    {
      ghost var original := rows;
      var pending := rows.Keys;
      expired := [];
      while pending != {}
        invariant pending <= original.Keys
        invariant forall t :: t in rows <==> t in original && (t in pending || original[t].expiresAt > now)
        invariant forall t :: t in rows ==> rows[t] == original[t]
        invariant forall i :: 0 <= i < |expired| ==>
          expired[i].0 in original && expired[i].0 !in pending && original[expired[i].0].expiresAt <= now &&
          expired[i].1 == original[expired[i].0].storedPath
        invariant forall t :: t in original && t !in pending && original[t].expiresAt <= now ==>
          (t, original[t].storedPath) in expired
        invariant forall i, j :: 0 <= i < j < |expired| ==> expired[i].0 != expired[j].0
        decreases pending
      {
        var t :| t in pending;
        if rows[t].expiresAt <= now {
          expired := expired + [(t, rows[t].storedPath)];
          rows := rows - {t};
        }
        pending := pending - {t};
      }
      VisitedAll(original, rows, expired, now);
    }
  }
}
