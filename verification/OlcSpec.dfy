/** What the concurrent tree promises: a linearizable ordered map. */
module OlcSpec {
  import opened Entries
  import opened OlcProtocol

  /** The map obtained by performing the committed inserts of a trace in commit order. */
  function Replay(trace: seq<Event>): map<Key, Value> {
    if trace == [] then map[] else
    var m, e := Replay(trace[..|trace| - 1]), trace[|trace| - 1];
    if e.Commit? && e.op.Insert? then m[e.op.k := e.op.v] else m
  }

  /** `keys` are the first keys of `m` from `k` on, in order and without a gap. */
  ghost predicate FirstKeys(m: map<Key, Value>, k: Key, keys: seq<Key>) {
    && Sorted(keys)
    && (forall i :: 0 <= i < |keys| ==> k <= keys[i] && keys[i] in m)
    && (keys != [] ==> forall x :: x in m && k <= x <= keys[|keys| - 1] ==> x in keys)
  }

  /** A one-leaf scan: a gapless prefix of what lies at or above `k`, empty only if nothing does. */
  ghost predicate ScanOk(m: map<Key, Value>, k: Key, range: nat, vals: seq<Value>) {
    && |vals| <= range
    && (vals == [] && range > 0 ==> forall x :: x in m ==> x < k)
    && exists keys :: ScanKeys(m, k, vals, keys)
  }

  ghost predicate ScanKeys(m: map<Key, Value>, k: Key, vals: seq<Value>, keys: seq<Key>) {
    && FirstKeys(m, k, keys)
    && |keys| == |vals|
    && forall i :: 0 <= i < |keys| ==> vals[i] == m[keys[i]]
  }

  /** The answers a sequential map may give. */
  ghost predicate Legal(m: map<Key, Value>, op: Op, res: Result) {
    match op
    case Insert(_, _) => res == Unit
    case Lookup(k) => res == Found(MapGet(m, k))
    case Scan(k, range) => res.Scanned? && ScanOk(m, k, range, res.vals)
  }

  predicate SameSlot(a: Event, b: Event) {
    && a.id == b.id
    && a.Invoke? == b.Invoke?
    && a.Commit? == b.Commit?
  }

  /** Every call commits at most once, after its invocation and before its response, with the result
      it responds; and at its commit the result is the one the sequential map gives. */
  ghost predicate Linearizable(trace: seq<Event>) {
    && (forall i, j :: 0 <= i < j < |trace| ==> !SameSlot(trace[i], trace[j]))
    && (forall j :: 0 <= j < |trace| ==> EventOk(trace[..j], trace[j]))
  }

  ghost predicate EventOk(before: seq<Event>, e: Event) {
    match e
    case Invoke(_, _) => true
    case Commit(id, op, res) => Invoke(id, op) in before && Legal(Replay(before), op, res)
    case Respond(id, res) => exists op :: Commit(id, op, res) in before
  }
}
