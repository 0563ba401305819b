/**
  Tables decoded on demand: an entry's parser asks for other entries, decoded entries are
  cached, and the entries being parsed are remembered to stop recursion. The reference is a
  decoder without cache and recursion, which goes over the whole table in rounds.
  */
module LazyTables {
  import opened Base

  /** A parser ends, or stops at an entry its table does not have. */
  datatype Step<+T> = Failed | Needs(index: nat) | Done(value: T)

  type Parser<!T> = (nat, seq<Option<T>>) -> Step<T>

  ghost predicate Below<T(!new)>(t1: seq<Option<T>>, t2: seq<Option<T>>) {
    |t1| == |t2| && forall i :: 0 <= i < |t1| && t1[i].Some? ==> t2[i] == t1[i]
  }

  /**
    Parsers run from front to back: with a table that knows more a parser does the same,
    unless it had stopped at an entry that is now known.
    */
  ghost predicate Sequential<T(!new)>(n: nat, parse: Parser<T>) {
    forall i: nat, t1: seq<Option<T>>, t2: seq<Option<T>> {:trigger parse(i, t1), parse(i, t2)} ::
      i < n && |t1| == n && Below(t1, t2) ==> Resumes(t1, t2, parse(i, t1), parse(i, t2))
  }

  ghost predicate Resumes<T(!new)>(t1: seq<Option<T>>, t2: seq<Option<T>>, s1: Step<T>, s2: Step<T>)
    requires |t1| == |t2|
  {
    (s1.Needs? ==> s1.index < |t1| && t1[s1.index].None?) &&
    (s2 == s1 || (s1.Needs? && s1.index < |t2| && t2[s1.index].Some?))
  }

  // ---------------------------------------------------------------- rounds

  function Outcome<T>(s: Step<T>): Option<T> {
    match s
    case Done(x) => Some(x)
    case _ => None
  }

  /** In round k an entry is decoded with what round k - 1 has decoded. */
  ghost function Round<T(!new)>(n: nat, parse: Parser<T>, k: nat): (t: seq<Option<T>>)
    ensures |t| == n
  {
    if k == 0 then seq(n, _ => None)
    else
      var before := Round(n, parse, k - 1);
      seq(n, i requires 0 <= i < n => Outcome(parse(i, before)))
  }

  /** The table decoded from scratch: n rounds are enough. */
  ghost function Decoded<T(!new)>(n: nat, parse: Parser<T>): (t: seq<Option<T>>)
    ensures |t| == n
  {
    Round(n, parse, n)
  }

  lemma {:induction false} SequentialAt<T(!new)>(n: nat, parse: Parser<T>, i: nat, t1: seq<Option<T>>, t2: seq<Option<T>>)
    requires Sequential(n, parse) && i < n && |t1| == n && Below(t1, t2)
    ensures Resumes(t1, t2, parse(i, t1), parse(i, t2))
  {
  }

  lemma {:induction false} RoundEntry<T(!new)>(n: nat, parse: Parser<T>, k: nat, i: nat)
    requires i < n
    ensures Round(n, parse, k)[i] == if k == 0 then None else Outcome(parse(i, Round(n, parse, k - 1)))
  {
  }

  lemma {:induction false} RoundsGrow<T(!new)>(n: nat, parse: Parser<T>, j: nat, k: nat)
    requires Sequential(n, parse) && j <= k
    ensures Below(Round(n, parse, j), Round(n, parse, k))
    decreases k
  {
    hide Sequential, Round;
    if 0 < j < k {
      RoundsGrow(n, parse, j - 1, k - 1);
    }
    forall i: nat | i < n && Round(n, parse, j)[i].Some? ensures Round(n, parse, k)[i] == Round(n, parse, j)[i] {
      RoundEntry(n, parse, j, i);
      RoundEntry(n, parse, k, i);
      if 0 < j < k {
        SequentialAt(n, parse, i, Round(n, parse, j - 1), Round(n, parse, k - 1));
      }
    }
  }

  ghost function Known<T(!new)>(t: seq<Option<T>>): (c: nat)
    ensures c <= |t|
  {
    if t == [] then 0 else (if t[0].Some? then 1 else 0) + Known(t[1..])
  }

  lemma {:induction false} KnownGrows<T(!new)>(t1: seq<Option<T>>, t2: seq<Option<T>>)
    requires Below(t1, t2)
    ensures Known(t1) <= Known(t2) && (Known(t1) == Known(t2) ==> t1 == t2)
  {
    if t1 != [] {
      assert Below(t1[1..], t2[1..]);
      KnownGrows(t1[1..], t2[1..]);
      assert t1 == [t1[0]] + t1[1..] && t2 == [t2[0]] + t2[1..];
    }
  }

  /** A round either decodes something new or is the last that matters. */
  lemma {:induction false} RoundsProgress<T(!new)>(n: nat, parse: Parser<T>, k: nat)
    requires Sequential(n, parse)
    ensures Known(Round(n, parse, k)) >= k || Round(n, parse, k + 1) == Round(n, parse, k)
  {
    hide Sequential, Round, Known, Below;
    if k > 0 {
      RoundsProgress(n, parse, k - 1);
      RoundsGrow(n, parse, k - 1, k);
      KnownGrows(Round(n, parse, k - 1), Round(n, parse, k));
      if Round(n, parse, k) == Round(n, parse, k - 1) {
        NextRound(n, parse, k, k - 1);
      }
    }
  }

  lemma {:induction false} NextRound<T(!new)>(n: nat, parse: Parser<T>, j: nat, k: nat)
    requires Round(n, parse, j) == Round(n, parse, k)
    ensures Round(n, parse, j + 1) == Round(n, parse, k + 1)
  {
  }

  /** Further rounds decode nothing more. */
  lemma {:induction false} DecodedIsFinal<T(!new)>(n: nat, parse: Parser<T>, k: nat)
    requires Sequential(n, parse) && k >= n
    ensures Round(n, parse, k) == Decoded(n, parse)
  {
    hide Sequential, Round, Known, Below;
    if k > n {
      RoundsProgress(n, parse, n);
      RoundsGrow(n, parse, n, n + 1);
      KnownGrows(Round(n, parse, n), Round(n, parse, n + 1));
      DecodedIsFinal(n, parse, k - 1);
      NextRound(n, parse, k - 1, n);
    }
  }

  lemma {:induction false} DecodedAgain<T(!new)>(n: nat, parse: Parser<T>, i: nat)
    requires Sequential(n, parse) && i < n
    ensures Decoded(n, parse)[i] == Outcome(parse(i, Decoded(n, parse)))
  {
    hide Sequential, Round;
    DecodedIsFinal(n, parse, n + 1);
    RoundEntry(n, parse, n + 1, i);
  }

  /** A table whose entries ask for earlier entries only is decoded completely. */
  lemma {:induction false} OrderedTableDecodes<T(!new)>(n: nat, parse: Parser<T>, table: seq<T>, k: nat)
    requires |table| == n && k <= n
    requires forall i: nat, t: seq<Option<T>> {:trigger parse(i, t)} ::
               i < n && |t| == n && (forall j :: 0 <= j < i ==> t[j] == Some(table[j])) ==> parse(i, t) == Done(table[i])
    ensures forall i :: 0 <= i < k ==> Round(n, parse, k)[i] == Some(table[i])
  {
    hide Round;
    if k > 0 {
      OrderedTableDecodes(n, parse, table, k - 1);
      var before := Round(n, parse, k - 1);
      forall i: nat | i < k ensures Round(n, parse, k)[i] == Some(table[i]) {
        assert parse(i, before) == Done(table[i]);
        RoundEntry(n, parse, k, i);
      }
    }
  }

  /** Entry `i` is parsed as soon as the entries of lower rank are there. */
  ghost predicate Ranked<T(!new)>(n: nat, parse: Parser<T>, table: seq<T>, rank: nat -> nat)
    requires |table| == n
  {
    forall i: nat, t: seq<Option<T>> {:trigger parse(i, t)} ::
      i < n && |t| == n && (forall j: nat :: j < n && rank(j) < rank(i) ==> t[j] == Some(table[j])) ==> parse(i, t) == Done(table[i])
  }

  lemma {:induction false} RankedRound<T(!new)>(n: nat, parse: Parser<T>, table: seq<T>, rank: nat -> nat, k: nat)
    requires |table| == n && Ranked(n, parse, table, rank)
    ensures forall i: nat :: i < n && rank(i) < k ==> Round(n, parse, k)[i] == Some(table[i])
  {
    hide Round;
    if k > 0 {
      RankedRound(n, parse, table, rank, k - 1);
      var before := Round(n, parse, k - 1);
      forall i: nat | i < n && rank(i) < k ensures Round(n, parse, k)[i] == Some(table[i]) {
        assert parse(i, before) == Done(table[i]);
        RoundEntry(n, parse, k, i);
      }
    }
  }

  ghost function HighestRank(n: nat, rank: nat -> nat): (r: nat)
    ensures forall i: nat :: i < n ==> rank(i) <= r
  {
    if n == 0 then 0
    else
      var before := HighestRank(n - 1, rank);
      if before < rank(n - 1) then rank(n - 1) else before
  }

  /** A table without cycles is decoded completely, in whatever order its entries refer to each other. */
  lemma {:induction false} AcyclicTableDecodes<T(!new)>(n: nat, parse: Parser<T>, table: seq<T>, rank: nat -> nat)
    requires |table| == n && Sequential(n, parse) && Ranked(n, parse, table, rank)
    ensures forall i: nat :: i < n ==> Decoded(n, parse)[i] == Some(table[i])
  {
    hide Round, Sequential, Ranked;
    var k := n + HighestRank(n, rank) + 1;
    RankedRound(n, parse, table, rank, k);
    DecodedIsFinal(n, parse, k);
  }

  // ---------------------------------------------------------------- why a lookup fails

  /** In every round in which entry `i` is decoded, some entry of `busy` is decoded as well. */
  ghost predicate WaitsFor<T(!new)>(n: nat, parse: Parser<T>, i: nat, busy: set<nat>)
    requires i < n
  {
    forall k: nat :: Round(n, parse, k)[i].Some? ==> exists b: nat :: b in busy && b < n && Round(n, parse, k)[b].Some?
  }

  ghost function Union<T(!new)>(t1: seq<Option<T>>, t2: seq<Option<T>>): (t: seq<Option<T>>)
    requires |t1| == |t2|
    ensures |t| == |t1|
  {
    seq(|t1|, i requires 0 <= i < |t1| => if t1[i].Some? then t1[i] else t2[i])
  }

  /** The first round that decodes an entry. */
  lemma {:induction false} FirstRound<T(!new)>(n: nat, parse: Parser<T>, i: nat, k: nat) returns (first: nat)
    requires i < n && Round(n, parse, k)[i].Some?
    ensures 0 < first <= k && Round(n, parse, first)[i].Some? && Round(n, parse, first - 1)[i].None?
  {
    hide Round;
    first := k;
    RoundEntry(n, parse, k, i);
    if Round(n, parse, k - 1)[i].Some? {
      first := FirstRound(n, parse, i, k - 1);
    }
  }

  /**
    A parser that does not finish with the cache: either it can never finish, or the entry
    it stopped at is decoded in an earlier round than its own.
    */
  lemma {:induction false} StoppedAt<T(!new)>(n: nat, parse: Parser<T>, i: nat, cache: seq<Option<T>>, first: nat)
    requires Sequential(n, parse) && i < n && Below(cache, Decoded(n, parse)) && |cache| == n
    requires 0 < first && Round(n, parse, first)[i].Some? && !parse(i, cache).Done?
    ensures parse(i, cache).Needs? && parse(i, cache).index < n && Round(n, parse, first - 1)[parse(i, cache).index].Some?
  {
    hide Sequential, Round;
    var before := Round(n, parse, first - 1);
    var both := Union(cache, before);
    RoundsGrow(n, parse, first - 1, first - 1 + n);
    DecodedIsFinal(n, parse, first - 1 + n);
    assert Below(before, Decoded(n, parse));
    assert Below(before, both) && Below(cache, both);
    RoundEntry(n, parse, first, i);
    SequentialAt(n, parse, i, before, both);
    SequentialAt(n, parse, i, cache, both);
  }

  lemma {:induction false} FailureWaits<T(!new)>(n: nat, parse: Parser<T>, i: nat, cache: seq<Option<T>>, busy: set<nat>)
    requires Sequential(n, parse) && i < n && Below(cache, Decoded(n, parse)) && |cache| == n
    requires !parse(i, cache).Done?
    requires parse(i, cache).Needs? && parse(i, cache).index < n ==> WaitsFor(n, parse, parse(i, cache).index, busy + {i})
    ensures WaitsFor(n, parse, i, busy)
  {
    hide Sequential, Round;
    forall k: nat | Round(n, parse, k)[i].Some?
      ensures exists b: nat :: b in busy && b < n && Round(n, parse, k)[b].Some?
    {
      var first := FirstRound(n, parse, i, k);
      StoppedAt(n, parse, i, cache, first);
      var b: nat :| b in busy + {i} && b < n && Round(n, parse, first - 1)[b].Some?;
      RoundsGrow(n, parse, first - 1, k);
      assert b in busy;
    }
  }

  /** With nothing being parsed, a failed lookup means that no round decodes the entry. */
  lemma {:induction false} WaitsForNothing<T(!new)>(n: nat, parse: Parser<T>, i: nat)
    requires i < n && WaitsFor(n, parse, i, {})
    ensures Decoded(n, parse)[i].None?
  {
    hide Round;
  }

  // ---------------------------------------------------------------- the table

  class LazyTable<T(!new)> {
    const n: nat
    const parse: Parser<T>
    var typeCache: seq<Option<T>>
    var currentlyParsing: set<nat>

    constructor (n: nat, parse: Parser<T>)
      requires Sequential(n, parse)
      ensures this.n == n && this.parse == parse && Valid() && currentlyParsing == {}
    {
      this.n, this.parse := n, parse;
      typeCache, currentlyParsing := seq(n, _ => None), {};
    }

    /** Only entries decoded from scratch are ever cached. */
    ghost predicate Valid()
      reads this
    {
      && Sequential(n, parse)
      && |typeCache| == n
      && Below(typeCache, Decoded(n, parse))
      && forall i :: i in currentlyParsing ==> i < n
    }

    /**
      Terminates on every table, as the set of entries being parsed grows; returns what
      decoding from scratch gives, or fails because of an entry that is being parsed.
      */
    method GetEntry(index: nat) returns (r: Option<T>)
      requires Valid()
      modifies this
      ensures Valid() && currentlyParsing == old(currentlyParsing) && Below(old(typeCache), typeCache)
      ensures r.Some? ==> index < n && typeCache[index] == r
      ensures r.Some? ==> index < n && r == Decoded(n, parse)[index]
      ensures r.None? && index < n ==> WaitsFor(n, parse, index, currentlyParsing)
      decreases n - |currentlyParsing|, 1
    {
      hide Sequential, Decoded, Round;
      if index >= n {
        return None;
      }
      if typeCache[index].Some? {
        return typeCache[index];
      }
      if index in currentlyParsing {
        return None;
      }
      FewIndices(currentlyParsing + {index}, n);
      ghost var busy := currentlyParsing;
      currentlyParsing := currentlyParsing + {index};
      r := ParseEntry(index, busy);
      currentlyParsing := currentlyParsing - {index};
      if r.Some? {
        typeCache := typeCache[index := r];
      }
    }

    /** The parser of one entry, resumed whenever an entry it asked for has been decoded. */
    method ParseEntry(index: nat, ghost busy: set<nat>) returns (r: Option<T>)
      requires Valid() && index < n && typeCache[index].None?
      requires index !in busy && currentlyParsing == busy + {index} && |currentlyParsing| <= n
      modifies this
      ensures Valid() && currentlyParsing == old(currentlyParsing) && Below(old(typeCache), typeCache)
      ensures r.Some? ==> r == Decoded(n, parse)[index]
      ensures r.None? ==> WaitsFor(n, parse, index, busy)
      decreases n - |currentlyParsing|, 2
    {
      hide WaitsFor, Sequential, Decoded, Known;
      while true
        invariant Valid() && currentlyParsing == old(currentlyParsing) && Below(old(typeCache), typeCache)
        decreases n - Known(typeCache)
      {
        ghost var cache := typeCache;
        var step := parse(index, typeCache);
        StepFacts(index, cache);
        match step {
          case Done(x) => return Some(x);
          case Failed =>
            FailureWaits(n, parse, index, cache, busy);
            return None;
          case Needs(j) =>
            var entry := GetEntry(j);
            if entry.None? {
              FailureWaits(n, parse, index, cache, busy);
              return None;
            }
            KnownGrows(cache, typeCache);
        }
      }
    }

    lemma {:induction false} StepFacts(index: nat, cache: seq<Option<T>>)
      requires Sequential(n, parse) && index < n && |cache| == n && Below(cache, Decoded(n, parse))
      ensures parse(index, cache).Done? ==> Decoded(n, parse)[index] == Some(parse(index, cache).value)
      ensures parse(index, cache).Needs? ==> parse(index, cache).index < n && cache[parse(index, cache).index].None?
    {
      hide Sequential, Decoded;
      DecodedAgain(n, parse, index);
      SequentialAt(n, parse, index, cache, Decoded(n, parse));
    }

    /** From outside a parser: whatever was looked up before, the answer is the uncached one. */
    method Lookup(index: nat) returns (r: Option<T>)
      requires Valid() && currentlyParsing == {}
      modifies this
      ensures Valid() && currentlyParsing == {}
      ensures r == if index < n then Decoded(n, parse)[index] else None
    {
      hide Sequential, Round;
      r := GetEntry(index);
      if r.None? && index < n {
        WaitsForNothing(n, parse, index);
      }
    }
  }

  lemma {:induction false} FewIndices(s: set<nat>, n: nat)
    requires forall i :: i in s ==> i < n
    ensures |s| <= n
  {
    if n == 0 {
      assert s == {};
    } else {
      FewIndices(s - {n - 1}, n - 1);
      assert s <= (s - {n - 1}) + {n - 1};
    }
  }
}
