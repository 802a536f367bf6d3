/**
 * The raffle's initial configuration: the prize table, its flattening into
 * the initial prize pool, and the contiguous range of ticket numbers.
 */
module Constants {
  import opened Pools

  /** One row of the prize table: a prize name and how many units of it there are. */
  datatype PrizeEntry = PrizeEntry(name: string, count: nat)

  /** `PRIZE_CONFIG`, in table order. */
  const PrizeConfig: seq<PrizeEntry> := [
    PrizeEntry("Billetes de Avión", 1),
    PrizeEntry("Maleta de Viaje", 1),
    PrizeEntry("Maletín Grande de Herramientas", 6),
    PrizeEntry("Maletín Pequeño de Herramientas", 4),
    PrizeEntry("Mochila", 9),
    PrizeEntry("Smartwatch Amazfit GTR 3 Pro", 1),
    PrizeEntry("Smartphone Xiaomi POCO X7", 1),
    PrizeEntry("Smartwatch Amazfit Bip 6 (Gris)", 1),
    PrizeEntry("Smartwatch Amazfit Bip 6 (Negro)", 1),
    PrizeEntry("Tablet Xiaomi Redmi Pad Pro 12.1\"", 1),
    PrizeEntry("Tablet Xiaomi Redmi Pad 2 11\"", 1),
    PrizeEntry("Smartphone Xiaomi Redmi 15", 1)
  ]

  /** `Array(count).fill(name)`. */
  function Fill(name: string, count: nat): (r: seq<string>)
    ensures |r| == count && forall k :: 0 <= k < |r| ==> r[k] == name
  {
    if count == 0 then [] else [name] + Fill(name, count - 1)
  }

  /** `flatMap(item => Array(item.count).fill(item.name))`. */
  function Flatten(cfg: seq<PrizeEntry>): (r: seq<string>)
    ensures |r| == TotalCount(cfg)
  {
    if cfg == [] then [] else Fill(cfg[0].name, cfg[0].count) + Flatten(cfg[1..])
  }

  /** The number of prize units the table lists. */
  function TotalCount(cfg: seq<PrizeEntry>): nat {
    if cfg == [] then 0 else cfg[0].count + TotalCount(cfg[1..])
  }

  /** The number of units the table lists under `name`, over all its rows. */
  function CountOf(cfg: seq<PrizeEntry>, name: string): nat {
    if cfg == [] then 0
    else (if cfg[0].name == name then cfg[0].count else 0) + CountOf(cfg[1..], name)
  }

  /** No two rows share a name. */
  predicate DistinctNames(cfg: seq<PrizeEntry>) {
    forall i, j :: 0 <= i < j < |cfg| ==> cfg[i].name != cfg[j].name
  }

  /** `INITIAL_PRIZES`. */
  const InitialPrizes: seq<string> := Flatten(PrizeConfig)

  /** `INITIAL_NUMBER_START` and `INITIAL_NUMBER_COUNT`. */
  const InitialNumberStart: int := 901
  const InitialNumberCount: nat := 97

  /** No element is smaller than or equal to one before it. */
  predicate StrictlyIncreasing(s: seq<int>) {
    forall i, j :: 0 <= i < j < |s| ==> s[i] < s[j]
  }

  /**
   * `Array.from({ length: count }, (_, i) => i + start)`: the integers of
   * `[start, start + count)`, ascending.
   */
  function NumberRange(start: int, count: nat): (r: seq<int>)
    ensures |r| == count
    ensures forall x :: x in r <==> start <= x < start + count
    ensures StrictlyIncreasing(r)
    ensures count > 0 ==> r[0] == start && r[count - 1] == start + count - 1
  {
    var r := seq(count, i => i + start);
    RangeMembers(start, count, r);
    r
  }

  /** Every integer of `[start, start + count)` is one of the range's elements. */
  lemma RangeMembers(start: int, count: nat, r: seq<int>)
    requires |r| == count && forall i :: 0 <= i < count ==> r[i] == i + start
    ensures forall x :: start <= x < start + count ==> x in r
  {
    forall x | start <= x < start + count ensures x in r {
      assert r[x - start] == x;
    }
  }

  /** The number pool at start-up and after a reset. */
  const InitialNumbers: seq<int> := NumberRange(InitialNumberStart, InitialNumberCount)

  /** `count` copies of `name`, and nothing else. */
  lemma {:induction false} FillFacts(name: string, count: nat)
    ensures multiset(Fill(name, count)) == multiset{}[name := count]
  {
    if count > 0 {
      FillFacts(name, count - 1);
    }
  }

  /** Each name occurs in the flattened pool as many times as the table lists it. */
  lemma {:induction false} FlattenOccurrences(cfg: seq<PrizeEntry>, name: string)
    ensures multiset(Flatten(cfg))[name] == CountOf(cfg, name)
  {
    if cfg != [] {
      FillFacts(cfg[0].name, cfg[0].count);
      FlattenOccurrences(cfg[1..], name);
    }
  }

  /** With distinct names, the units listed under the name of row `k` are row `k`'s. */
  lemma {:induction false} CountOfDistinct(cfg: seq<PrizeEntry>, k: nat)
    requires DistinctNames(cfg) && k < |cfg|
    ensures CountOf(cfg, cfg[k].name) == cfg[k].count
  {
    if k == 0 {
      CountOfAbsent(cfg[1..], cfg[0].name);
    } else {
      assert DistinctNames(cfg[1..]);
      CountOfDistinct(cfg[1..], k - 1);
    }
  }

  /** A name no row carries has no units. */
  lemma {:induction false} CountOfAbsent(cfg: seq<PrizeEntry>, name: string)
    requires forall i :: 0 <= i < |cfg| ==> cfg[i].name != name
    ensures CountOf(cfg, name) == 0
  {
    if cfg != [] {
      CountOfAbsent(cfg[1..], name);
    }
  }

  /**
   * The flattening keeps table order: the copies of row `k` occupy the
   * positions right after all copies of rows `0 .. k - 1`.
   */
  lemma {:induction false} FlattenBlock(cfg: seq<PrizeEntry>, k: nat, j: nat)
    requires k < |cfg| && j < cfg[k].count
    ensures TotalCount(cfg[..k]) + j < |Flatten(cfg)|
    ensures Flatten(cfg)[TotalCount(cfg[..k]) + j] == cfg[k].name
  {
    if k > 0 {
      FlattenBlock(cfg[1..], k - 1, j);
      assert cfg[..k][1..] == cfg[1..][..k - 1];
      assert cfg[..k] != [];
    } else {
      assert cfg[..k] == [];
    }
  }

  /** The table's prize names are distinct. */
  lemma PrizeConfigNamesDistinct()
    ensures DistinctNames(PrizeConfig)
  {
  }

  /** `INITIAL_PRIZES` holds 28 prizes, one per unit of the table. */
  lemma InitialPrizesLength()
    ensures |InitialPrizes| == TotalCount(PrizeConfig) == 28
  {
  }

  /**
   * Each name of the table occurs in `INITIAL_PRIZES` exactly as often as
   * its row says.
   */
  lemma InitialPrizesOccurrence(k: nat)
    requires k < |PrizeConfig|
    ensures multiset(InitialPrizes)[PrizeConfig[k].name] == PrizeConfig[k].count
  {
    PrizeConfigCountOf(k);
    FlattenOccurrences(PrizeConfig, PrizeConfig[k].name);
  }

  /** The table lists the units of each of its names in one row. */
  lemma PrizeConfigCountOf(k: nat)
    requires k < |PrizeConfig|
    ensures CountOf(PrizeConfig, PrizeConfig[k].name) == PrizeConfig[k].count
  {
    PrizeConfigNamesDistinct();
    CountOfDistinct(PrizeConfig, k);
  }

  /** 'Mochila' occurs nine times in `INITIAL_PRIZES`. */
  lemma MochilaNine()
    ensures multiset(InitialPrizes)["Mochila"] == 9
  {
    assert PrizeConfig[4] == PrizeEntry("Mochila", 9);
    InitialPrizesOccurrence(4);
  }

  /** The pool starts with the flight tickets, of which there is one unit. */
  lemma FlightTicketsFirst()
    ensures |InitialPrizes| > 0 && InitialPrizes[0] == "Billetes de Avión"
    ensures multiset(InitialPrizes)["Billetes de Avión"] == 1
  {
    FlattenBlock(PrizeConfig, 0, 0);
    assert PrizeConfig[..0] == [];
    InitialPrizesOccurrence(0);
  }

  /**
   * The initial number pool is 901, 902, ..., 997: 97 ascending, distinct
   * tickets, ending at `start + count - 1`.
   */
  lemma InitialNumbersFacts()
    ensures |InitialNumbers| == 97
    ensures InitialNumbers[0] == 901 && InitialNumbers[96] == InitialNumberStart + InitialNumberCount - 1 == 997
    ensures StrictlyIncreasing(InitialNumbers) && Distinct(InitialNumbers)
    ensures forall x :: x in InitialNumbers <==> 901 <= x <= 997
  {
  }

  /** There are no more prizes than tickets: 69 tickets win nothing. */
  lemma UnprizedNumbers()
    ensures |InitialPrizes| <= |InitialNumbers|
    ensures |InitialNumbers| - |InitialPrizes| == 69
  {
    InitialPrizesLength();
    InitialNumbersFacts();
  }
}
