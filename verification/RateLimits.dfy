/** Durable fixed-window rate limits (abuse_limits.py in backend/app/repositories and backend/app/services). */
module RateLimits {
  import opened Outcomes
  import opened Text

  /** The primary key of a bucket; times are microseconds since the epoch. */
  datatype Key = Key(operation: string, dimension: string, subject: string, started: int)

  datatype Bucket = Bucket(count: nat, expires: int, account: Option<nat>)

  datatype Attempt = Attempt(key: Key, account: Option<nat>, expires: int, now: int)

  const BATCH: nat := 256

  predicate KeyBefore(a: Key, b: Key) {
    Less(a.operation, b.operation)
    || (a.operation == b.operation
        && (Less(a.dimension, b.dimension)
            || (a.dimension == b.dimension
                && (Less(a.subject, b.subject) || (a.subject == b.subject && a.started < b.started)))))
  }

  lemma KeyBeforeIsTotal(a: Key, b: Key)
    ensures KeyBefore(a, b) || a == b || KeyBefore(b, a)
  {
    LessIsTotal(a.operation, b.operation);
    LessIsTotal(a.dimension, b.dimension);
    LessIsTotal(a.subject, b.subject);
  }

  lemma KeyBeforeIsTransitive(a: Key, b: Key, c: Key)
    requires KeyBefore(a, b) && KeyBefore(b, c)
    ensures KeyBefore(a, c)
  {
    if Less(a.operation, b.operation) && Less(b.operation, c.operation) {
      LessIsTransitive(a.operation, b.operation, c.operation);
    } else if a.operation == b.operation == c.operation {
      if Less(a.dimension, b.dimension) && Less(b.dimension, c.dimension) {
        LessIsTransitive(a.dimension, b.dimension, c.dimension);
      } else if a.dimension == b.dimension == c.dimension && Less(a.subject, b.subject) && Less(b.subject, c.subject) {
        LessIsTransitive(a.subject, b.subject, c.subject);
      }
    }
  }

  function Expired(m: map<Key, Bucket>, now: int): set<Key> {
    set k | k in m && m[k].expires <= now
  }

  /** `ORDER BY expires_at` and then the key. */
  predicate Earlier(m: map<Key, Bucket>, a: Key, b: Key)
    requires a in m && b in m
  {
    m[a].expires < m[b].expires || (m[a].expires == m[b].expires && KeyBefore(a, b))
  }

  lemma EarliestExists(m: map<Key, Bucket>, keys: set<Key>) returns (earliest: Key)
    requires keys != {} && keys <= m.Keys
    ensures earliest in keys && forall k :: k in keys && k != earliest ==> Earlier(m, earliest, k)
    decreases |keys|
  {
    hide KeyBefore;
    earliest :| earliest in keys;
    if keys != {earliest} {
      var others := keys - {earliest};
      assert keys == others + {earliest};
      var other := EarliestExists(m, others);
      KeyBeforeIsTotal(earliest, other);
      if Earlier(m, other, earliest) {
        earliest := other;
      } else {
        forall k | k in others && k != other ensures Earlier(m, earliest, k) {
          if KeyBefore(earliest, other) && KeyBefore(other, k) { KeyBeforeIsTransitive(earliest, other, k); }
        }
      }
    }
  }

  /** A batch of expired buckets to prune: all of them, or the 256 that come first. */
  ghost predicate Batch(m: map<Key, Bucket>, now: int, gone: set<Key>) {
    && gone <= Expired(m, now)
    && |gone| == (if |Expired(m, now)| <= BATCH then |Expired(m, now)| else BATCH)
    && forall g, k :: g in gone && k in Expired(m, now) - gone ==> Earlier(m, g, k)
  }

  /** The expired buckets of the attempt's own subject. */
  function Stale(m: map<Key, Bucket>, a: Attempt): set<Key> {
    set k | k in Expired(m, a.now) && k.operation == a.key.operation && k.dimension == a.key.dimension
            && k.subject == a.key.subject
  }

  /** The attempt's bucket after the upsert. */
  function Upserted(m: map<Key, Bucket>, a: Attempt): map<Key, Bucket> {
    m[a.key := if a.key in m then m[a.key].(count := m[a.key].count + 1, expires := a.expires)
               else Bucket(1, a.expires, a.account)]
  }

  /** One call: prune a batch, delete what is stale of this subject, count the attempt. */
  ghost predicate Recorded(m: map<Key, Bucket>, a: Attempt, after: map<Key, Bucket>) {
    exists gone :: Batch(m, a.now, gone) && after == Upserted(m - gone - Stale(m - gone, a), a)
  }

  class BucketTable {
    var buckets: map<Key, Bucket>

    /** The batch, found one bucket at a time in the order of expiry. */
    method ExpiredKeys(now: int) returns (gone: set<Key>)
      ensures Batch(buckets, now, gone)
    {
      hide KeyBefore;
      gone := {};
      var rest := Expired(buckets, now);
      while |gone| < BATCH && rest != {}
        invariant gone !! rest && gone + rest == Expired(buckets, now) && |gone| <= BATCH
        invariant |gone| + |rest| == |Expired(buckets, now)|
        invariant forall g, k :: g in gone && k in rest ==> Earlier(buckets, g, k)
      {
        hide Earlier;
        ghost var earliest := EarliestExists(buckets, rest);
        var next :| next in rest && forall k :: k in rest && k != next ==> Earlier(buckets, next, k);
        gone, rest := gone + {next}, rest - {next};
      }
      assert rest == Expired(buckets, now) - gone;
    }

    /** `record_rate_limit_attempt`. */
    method RecordAttempt(a: Attempt) returns (count: nat, expires: int)
      modifies this
      ensures Recorded(old(buckets), a, buckets)
      ensures a.key in buckets && count == buckets[a.key].count && expires == buckets[a.key].expires
    {
      var gone := ExpiredKeys(a.now);
      hide Batch;
      buckets := buckets - gone;
      buckets := buckets - Stale(buckets, a);
      buckets := Upserted(buckets, a);
      count, expires := buckets[a.key].count, buckets[a.key].expires;
    }
  }

  /** What a call does to any table: it counts on a live bucket or starts anew, and prunes only what expired. */
  lemma RecordedMeans(m: map<Key, Bucket>, a: Attempt, after: map<Key, Bucket>)
    requires Recorded(m, a, after)
    ensures a.key in after && after[a.key].expires == a.expires
    ensures after[a.key].count == if a.key in m && m[a.key].expires > a.now then m[a.key].count + 1 else 1
    ensures after[a.key].account == if a.key in m && m[a.key].expires > a.now then m[a.key].account else a.account
    ensures forall k :: k in m && k != a.key && m[k].expires > a.now ==> k in after
    ensures forall k :: k in after && k != a.key ==> k in m && after[k] == m[k]
  {
    hide Batch;
    var gone :| Batch(m, a.now, gone) && after == Upserted(m - gone - Stale(m - gone, a), a);
    BatchLeaves(m, a.now, gone);
  }

  /** How far a call prunes: nothing expired of its own subject stays, and of all others the excess over 256. */
  lemma PruningMeans(m: map<Key, Bucket>, a: Attempt, after: map<Key, Bucket>)
    requires Recorded(m, a, after)
    ensures forall k :: k in after && k != a.key && SameSubject(k, a.key) ==> after[k].expires > a.now
    ensures |Expired(after, a.now) - {a.key}| <=
      if |Expired(m, a.now)| <= BATCH then 0 else |Expired(m, a.now)| - BATCH
    ensures exists first :: FirstAreGone(m, a, after, first)
  {
    hide Batch;
    var gone :| Batch(m, a.now, gone) && after == Upserted(m - gone - Stale(m - gone, a), a);
    BatchLeaves(m, a.now, gone);
    var left := Expired(m, a.now) - gone;
    assert Expired(after, a.now) - {a.key} <= left;
    SubsetIsSmaller(Expired(after, a.now) - {a.key}, left);
    OthersLost(m, a, after);
  }

  /** The rows in `first` have expired and come before all others, and no row is missing but these and the subject's. */
  ghost predicate FirstAreGone(m: map<Key, Bucket>, a: Attempt, after: map<Key, Bucket>, first: set<Key>) {
    && |first| <= 256
    && (forall f :: f in first ==> f in m && m[f].expires <= a.now)
    && (forall f, k :: f in first && k in m && m[k].expires < m[f].expires ==> k in first)
    && (forall k :: k in m && k !in after ==> k in first || SameSubject(k, a.key))
  }

  predicate SameSubject(k: Key, l: Key) {
    k.operation == l.operation && k.dimension == l.dimension && k.subject == l.subject
  }

  /** Of other subjects a call removes only expired rows, at most 256 and those that expired first. */
  lemma OthersLost(m: map<Key, Bucket>, a: Attempt, after: map<Key, Bucket>)
    requires Recorded(m, a, after)
    ensures exists first :: FirstAreGone(m, a, after, first)
  {
    var gone :| Batch(m, a.now, gone) && after == Upserted(m - gone - Stale(m - gone, a), a);
    hide KeyBefore;
    forall f, k | f in gone && k in Expired(m, a.now) - gone ensures m[f].expires <= m[k].expires {
      assert Earlier(m, f, k);
    }
    assert FirstAreGone(m, a, after, gone);
  }

  lemma BatchLeaves(m: map<Key, Bucket>, now: int, gone: set<Key>)
    requires Batch(m, now, gone)
    ensures gone <= Expired(m, now)
    ensures |Expired(m, now) - gone| == if |Expired(m, now)| <= BATCH then 0 else |Expired(m, now)| - BATCH
  {
    hide Earlier, Expired;
  }

  lemma {:induction false} SubsetIsSmaller<T>(a: set<T>, b: set<T>)
    requires a <= b
    ensures |a| <= |b|
  {
    assert b == a + (b - a);
  }

  /** A history of calls on an empty table: `tables[i]` is what call `i` found. */
  ghost predicate History(calls: seq<Attempt>, tables: seq<map<Key, Bucket>>) {
    && |tables| == |calls| + 1 && tables[0] == map[]
    && forall i :: 0 <= i < |calls| ==> Recorded(tables[i], calls[i], tables[i + 1])
  }

  /** The calls on this key among the first `n`. */
  function Attempts(calls: seq<Attempt>, n: nat, key: Key): nat
    requires n <= |calls|
  {
    if n == 0 then 0 else Attempts(calls, n - 1, key) + if calls[n - 1].key == key then 1 else 0
  }

  /** Until a call comes that sees the key expired, its bucket counts every call on it. */
  lemma {:induction false} BucketCountsAttempts(calls: seq<Attempt>, tables: seq<map<Key, Bucket>>, n: nat, key: Key,
      expires: int)
    requires History(calls, tables) && n <= |calls|
    requires forall i :: 0 <= i < n ==> calls[i].now < expires
    requires forall i :: 0 <= i < n && calls[i].key == key ==> calls[i].expires == expires
    ensures Attempts(calls, n, key) == if key in tables[n] then tables[n][key].count else 0
    ensures key in tables[n] ==> tables[n][key].expires == expires
  {
    hide Recorded;
    if n > 0 {
      BucketCountsAttempts(calls, tables, n - 1, key, expires);
      RecordedMeans(tables[n - 1], calls[n - 1], tables[n]);
    }
  }

  /** `_window`: the whole multiple of the window, in seconds, that the time falls into, and the next. */
  function Window(now: int, seconds: nat): (int, int)
    requires seconds > 0
  {
    var epoch := now / 1_000_000;
    var start := epoch - epoch % seconds;
    (start * 1_000_000, (start + seconds) * 1_000_000)
  }

  predicate WholeMultiple(start: int, n: int, length: int) {
    start == n * length
  }

  lemma MultipleOfLength(epoch: int, seconds: nat)
    requires seconds > 0
    ensures WholeMultiple((epoch - epoch % seconds) * 1_000_000, epoch / seconds, seconds * 1_000_000)
  {
    var n := epoch / seconds;
    assert epoch - epoch % seconds == n * seconds;
    assert n * seconds * 1_000_000 == n * (seconds * 1_000_000);
  }

  /** What has expired, and which expired rows are pruned first: those that expired earlier, and then by their key. */
  lemma PruningOrder(m: map<Key, Bucket>, now: int, a: Key, b: Key)
    ensures a in Expired(m, now) <==> a in m && m[a].expires <= now
    ensures a in m && b in m && m[a].expires < m[b].expires ==> Earlier(m, a, b)
    ensures a in m && b in m && m[a].expires == m[b].expires ==>
              (Earlier(m, a, b) <==>
                if a.operation != b.operation then Less(a.operation, b.operation)
                else if a.dimension != b.dimension then Less(a.dimension, b.dimension)
                else if a.subject != b.subject then Less(a.subject, b.subject)
                else a.started < b.started)
    ensures a in m && b in m && m[a].expires > m[b].expires ==> !Earlier(m, a, b)
    ensures BATCH == 256
  {
    LessIsIrreflexive(a.operation);
    LessIsIrreflexive(a.dimension);
    LessIsIrreflexive(a.subject);
  }

  /** The window holds the time and starts at a multiple of its length; windows of one length are equal or apart. */
  lemma WindowHoldsNow(now: int, seconds: nat)
    requires seconds > 0
    ensures Window(now, seconds).0 <= now < Window(now, seconds).1
    ensures Window(now, seconds).1 == Window(now, seconds).0 + seconds * 1_000_000
    ensures exists n :: WholeMultiple(Window(now, seconds).0, n, seconds * 1_000_000)
  {
    var epoch := now / 1_000_000;
    MultipleOfLength(epoch, seconds);
    assert epoch * 1_000_000 <= now < (epoch + 1) * 1_000_000;
    assert 0 <= epoch % seconds < seconds;
  }

  /** Calls whose window is computed from their own time, which never goes back. */
  predicate Timely(calls: seq<Attempt>, seconds: nat)
    requires seconds > 0
  {
    && (forall i :: 0 <= i < |calls| ==>
         Window(calls[i].now, seconds) == (calls[i].key.started, calls[i].expires))
    && forall i, j :: 0 <= i < j < |calls| ==> calls[i].now <= calls[j].now
  }

  /** The count returned is the number of attempts so far of this subject at this operation in this window. */
  lemma CountIsExact(calls: seq<Attempt>, tables: seq<map<Key, Bucket>>, seconds: nat, i: nat)
    requires seconds > 0 && History(calls, tables) && Timely(calls, seconds) && i < |calls|
    ensures calls[i].key in tables[i + 1] && tables[i + 1][calls[i].key].count == Attempts(calls, i + 1, calls[i].key)
  {
    hide Recorded, Window;
    var key, expires := calls[i].key, calls[i].expires;
    forall j | 0 <= j <= i
      ensures calls[j].now < expires && (calls[j].key == key ==> calls[j].expires == expires)
    {
      WindowHoldsNow(calls[i].now, seconds);
      WindowHoldsNow(calls[j].now, seconds);
      assert Window(calls[i].now, seconds) == (key.started, expires);
      assert Window(calls[j].now, seconds) == (calls[j].key.started, calls[j].expires);
    }
    BucketCountsAttempts(calls, tables, i + 1, key, expires);
    RecordedMeans(tables[i], calls[i], tables[i + 1]);
  }
}
