/** Counters and flags with expiry, as the key-value server keeps them. Every operation is atomic. */
module Redis {
  import opened Common

  datatype Cell = Cell(value: int, expireAt: Option<int>)

  predicate Live(cell: Cell, now: int) {
    cell.expireAt.None? || now < cell.expireAt.value
  }

  function Get<K>(m: map<K, Cell>, k: K, now: int): Option<int> {
    if k in m && Live(m[k], now) then Some(m[k].value) else None
  }

  /** What a reader that takes a missing key for zero sees. */
  function Count<K>(m: map<K, Cell>, k: K, now: int): int {
    match Get(m, k, now) case Some(v) => v case None => 0
  }

  predicate Exists<K>(m: map<K, Cell>, k: K, now: int) {
    Get(m, k, now).Some?
  }

  /** INCR keeps the deadline of a live key; on a missing key it starts at one without a deadline. */
  function Incr<K>(m: map<K, Cell>, k: K, now: int): map<K, Cell> {
    m[k := Cell(Count(m, k, now) + 1, if Exists(m, k, now) then m[k].expireAt else None)]
  }

  function Expire<K>(m: map<K, Cell>, k: K, now: int, ttl: int): map<K, Cell> {
    if Exists(m, k, now) then m[k := m[k].(expireAt := Some(now + ttl))] else m
  }

  function Set<K>(m: map<K, Cell>, k: K, v: int, now: int, ttl: int): map<K, Cell> {
    m[k := Cell(v, Some(now + ttl))]
  }

  function Del<K>(m: map<K, Cell>, k: K): map<K, Cell> {
    m - {k}
  }
}
