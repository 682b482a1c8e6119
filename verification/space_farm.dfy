/**
 * The Space Farm widget: plants whose growth stage follows the time since planting,
 * study counters bumped by planting, and harvesting guarded on a ripe plant.
 * Times are integer milliseconds since the epoch.
 */
module SpaceFarm {
  import opened Wrappers
  import opened Text

  /** One hour in milliseconds. */
  const HourMs: int := 1000 * 60 * 60

  /** The last stage, "Ripe". */
  const RipeStage: nat := 3

  /** A plant: `plantedAt` is the planting instant, `kind` the `type` field. */
  datatype Plant = Plant(id: string, kind: string, plantedAt: int, studyMinutes: int, stage: nat)

  /**
   * The growth stage after `elapsedMs` milliseconds: Seed up to 6 hours, Sprout up to 12,
   * Budding up to 24, Ripe after that (each bound exclusive on the lower side).
   */
  function StageFor(elapsedMs: int): (s: nat)
    ensures s <= RipeStage
    ensures s == 0 <==> elapsedMs <= 6 * HourMs
    ensures s == 1 <==> 6 * HourMs < elapsedMs <= 12 * HourMs
    ensures s == 2 <==> 12 * HourMs < elapsedMs <= 24 * HourMs
    ensures s == 3 <==> 24 * HourMs < elapsedMs
  {
    var s0 := 0;
    var s1 := if elapsedMs > 6 * HourMs then 1 else s0;
    var s2 := if elapsedMs > 12 * HourMs then 2 else s1;
    if elapsedMs > 24 * HourMs then 3 else s2
  }

  /** A plant never goes back a stage as time passes. */
  lemma StageMonotone(a: int, b: int)
    requires a <= b
    ensures StageFor(a) <= StageFor(b)
  {
  }

  /** The `plants.map` of `updatePlantGrowth`: each plant's stage recomputed at `now`. */
  function Grown(ps: seq<Plant>, now: int): (r: seq<Plant>)
    ensures |r| == |ps|
    ensures forall i :: 0 <= i < |r| ==>
              r[i].id == ps[i].id && r[i].kind == ps[i].kind && r[i].plantedAt == ps[i].plantedAt
              && r[i].studyMinutes == ps[i].studyMinutes
              && r[i].stage == StageFor(now - ps[i].plantedAt)
  {
    seq(|ps|, i requires 0 <= i < |ps| => ps[i].(stage := StageFor(now - ps[i].plantedAt)))
  }

  /** Recomputing the stages a second time at the same instant changes nothing. */
  lemma GrownIdempotent(ps: seq<Plant>, now: int)
    ensures Grown(Grown(ps, now), now) == Grown(ps, now)
  {
    var g := Grown(ps, now);
    var gg := Grown(g, now);
    assert |gg| == |g|;
    forall i | 0 <= i < |g|
      ensures gg[i] == g[i]
    {
    }
  }

  /** Recomputing later never lowers any plant's stage. */
  lemma GrownLaterNotLower(ps: seq<Plant>, t1: int, t2: int)
    requires t1 <= t2
    ensures forall i :: 0 <= i < |ps| ==> Grown(ps, t1)[i].stage <= Grown(ps, t2)[i].stage
  {
    forall i | 0 <= i < |ps|
      ensures Grown(ps, t1)[i].stage <= Grown(ps, t2)[i].stage
    {
      StageMonotone(t1 - ps[i].plantedAt, t2 - ps[i].plantedAt);
    }
  }

  /** `plants.find(p => p.id === id)`: the first plant with that id. */
  function FindPlant(ps: seq<Plant>, id: string): (r: Option<nat>)
    ensures r.None? <==> forall p :: p in ps ==> p.id != id
    ensures r.Some? ==> r.value < |ps| && ps[r.value].id == id
                        && forall j :: 0 <= j < r.value ==> ps[j].id != id
  {
    if ps == [] then None
    else if ps[0].id == id then Some(0)
    else match FindPlant(ps[1..], id)
      case None => None
      case Some(k) => Some(k + 1)
  }

  /** `plants.filter(p => p.id !== id)`. */
  function RemovePlant(ps: seq<Plant>, id: string): (r: seq<Plant>)
    ensures forall p :: p in r <==> p in ps && p.id != id
    ensures |r| <= |ps|
    ensures (forall p :: p in ps ==> p.id != id) ==> r == ps
  {
    if ps == [] then []
    else RemovePlant(ps[..|ps| - 1], id) + (if ps[|ps| - 1].id != id then [ps[|ps| - 1]] else [])
  }

  /** Removing from a concatenation removes from each part: the kept plants stay in order. */
  lemma {:induction false} RemovePlantConcat(a: seq<Plant>, b: seq<Plant>, id: string)
    ensures RemovePlant(a + b, id) == RemovePlant(a, id) + RemovePlant(b, id)
  {
    if b != [] {
      var n := |b| - 1;
      assert (a + b)[..|a + b| - 1] == a + b[..n];
      RemovePlantConcat(a, b[..n], id);
    } else {
      assert a + b == a;
    }
  }

  /** How many plants carry the id. */
  function CountWithId(ps: seq<Plant>, id: string): nat {
    if ps == [] then 0
    else CountWithId(ps[..|ps| - 1], id) + (if ps[|ps| - 1].id == id then 1 else 0)
  }

  /** Removal drops exactly the plants with the id: kept plus removed is all of them. */
  lemma {:induction false} RemovePlantCount(ps: seq<Plant>, id: string)
    ensures |RemovePlant(ps, id)| + CountWithId(ps, id) == |ps|
  {
    if ps != [] {
      RemovePlantCount(ps[..|ps| - 1], id);
    }
  }

  /** `(stage + 1) * 25`: the progress bar width in percent. */
  function ProgressWidth(stage: nat): (w: nat)
    ensures stage <= RipeStage ==> 25 <= w <= 100
    ensures stage <= RipeStage ==> (w == 100 <==> stage == RipeStage)
  {
    (stage + 1) * 25
  }

  class Farm {
    var plants: seq<Plant>
    var totalStudySessions: int
    var totalStudyMinutes: int
    var harvested: int
    var isWatering: bool

    /** Every stored plant's stage is one of the four stages. */
    ghost predicate Valid()
      reads this
    {
      forall p :: p in plants ==> p.stage <= RipeStage
    }

    constructor ()
      ensures Valid()
      ensures plants == [] && totalStudySessions == 0 && totalStudyMinutes == 0 && harvested == 0
      ensures !isWatering
    {
      plants := [];
      totalStudySessions := 0;
      totalStudyMinutes := 0;
      harvested := 0;
      isWatering := false;
    }

    /** `updatePlantGrowth`: replace the plant list by `plantArray` with stages recomputed at `now`. */
    method UpdatePlantGrowth(plantArray: seq<Plant>, now: int)
      modifies this`plants
      ensures plants == Grown(plantArray, now)
      ensures Valid()
    {
      plants := Grown(plantArray, now);
    }

    /**
     * The mount effect: a saved farm (counters and plants) is restored with its stages
     * brought up to date; without one the farm stays as it is.
     */
    method Load(saved: Option<(int, int, int, seq<Plant>)>, now: int)
      requires Valid()
      modifies this
      ensures Valid()
      ensures saved.None? ==>
                plants == old(plants) && totalStudySessions == old(totalStudySessions)
                && totalStudyMinutes == old(totalStudyMinutes) && harvested == old(harvested)
      ensures saved.Some? ==>
                totalStudySessions == saved.value.0 && totalStudyMinutes == saved.value.1
                && harvested == saved.value.2 && plants == Grown(saved.value.3, now)
      ensures isWatering == old(isWatering)
    {
      if saved.Some? {
        var (sessions, minutes, count, ps) := saved.value;
        totalStudySessions, totalStudyMinutes, harvested := sessions, minutes, count;
        UpdatePlantGrowth(ps, now);
      }
    }

    /**
     * `plantTomato`: one more session and `studyMinutes` more minutes, a new seed named after
     * the current instant appended, and the watering animation started.
     */
    method PlantTomato(studyMinutes: int, now: nat)
      requires Valid()
      modifies this
      ensures Valid()
      ensures totalStudySessions == old(totalStudySessions) + 1
      ensures totalStudyMinutes == old(totalStudyMinutes) + studyMinutes
      ensures harvested == old(harvested)
      ensures plants == old(plants) + [Plant(Decimal(now), "tomato", now, studyMinutes, 0)]
      ensures isWatering
    {
      var seed := Plant(Decimal(now), "tomato", now, studyMinutes, 0);
      totalStudySessions := totalStudySessions + 1;
      totalStudyMinutes := totalStudyMinutes + studyMinutes;
      plants := plants + [seed];
      isWatering := true;
    }

    /**
     * `harvestPlant`: when the first plant with the id is ripe, count a harvest and remove every
     * plant with that id; `credits` is the harvested plant's study minutes. Otherwise nothing changes.
     */
    method HarvestPlant(id: string) returns (credits: Option<int>)
      requires Valid()
      modifies this`plants, this`harvested
      ensures Valid()
      ensures var found := FindPlant(old(plants), id);
              credits.Some? <==> found.Some? && old(plants)[found.value].stage >= RipeStage
      ensures credits.None? ==> plants == old(plants) && harvested == old(harvested)
      ensures credits.Some? ==>
                credits.value == old(plants)[FindPlant(old(plants), id).value].studyMinutes
                && harvested == old(harvested) + 1 && plants == RemovePlant(old(plants), id)
    {
      var found := FindPlant(plants, id);
      if found.None? || plants[found.value].stage < RipeStage {
        return None;
      }
      credits := Some(plants[found.value].studyMinutes);
      harvested := harvested + 1;
      plants := RemovePlant(plants, id);
    }

    /** `waterPlants`: only the animation flag changes. */
    method WaterPlants()
      requires Valid()
      modifies this`isWatering
      ensures Valid() && isWatering
    {
      isWatering := true;
    }

    /** The watering animation's one-second timeout. */
    method StopWatering()
      requires Valid()
      modifies this`isWatering
      ensures Valid() && !isWatering
    {
      isWatering := false;
    }
  }

  /** After a harvest no plant with the harvested id is left. */
  lemma HarvestLeavesNoneWithId(ps: seq<Plant>, id: string)
    ensures forall p :: p in RemovePlant(ps, id) ==> p.id != id
    ensures FindPlant(RemovePlant(ps, id), id).None?
  {
  }
}
