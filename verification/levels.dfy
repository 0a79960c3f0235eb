/**
  The per-scene level metadata: a constant table from level number to the
  shot budget of that level, and a second table from level number to the
  ball's start position. Both are read through lookups that fail (the
  dictionary indexer throws) when the level number is not a key.
 */
module LevelDetails {

  /** A 2D point; the source's single-precision components are kept as reals. */
  datatype Vec2 = Vec2(x: real, y: real)

  /** Outcome of a dictionary lookup: the value, or the missing key. */
  datatype Lookup<T> = Found(value: T) | KeyNotFound(key: int)

  /** Level number -> number of shots allowed on that level. */
  const LevelAttempts: map<int, int> := map[1 := 1, 2 := 2, 3 := 3]

  /** Level number -> start position of the ball. */
  const LevelPos: map<int, Vec2> := map[1 := Vec2(-1.0, -2.3)]

  /** The shot budget of level `number`; only levels 1 to 3 have one. */
  function NumAttempts(number: int): (r: Lookup<int>)
    ensures r.Found? <==> 1 <= number <= 3
    ensures r.Found? ==> r.value == number && r.value >= 1
    ensures r.KeyNotFound? ==> r.key == number
  {
    if number in LevelAttempts then Found(LevelAttempts[number]) else KeyNotFound(number)
  }

  /** The start position of level `number`; only level 1 has one. */
  function StartPos(number: int): (r: Lookup<Vec2>)
    ensures r.Found? <==> number == 1
    ensures r.Found? ==> r.value == Vec2(-1.0, -2.3)
    ensures r.KeyNotFound? ==> r.key == number
  {
    if number in LevelPos then Found(LevelPos[number]) else KeyNotFound(number)
  }

  /** Every level in the table allows at least one shot. */
  lemma BudgetsPositive()
    ensures forall n :: n in LevelAttempts ==> LevelAttempts[n] >= 1
  {
  }

  /** A later level never allows fewer (in fact always more) shots. */
  lemma BudgetsStrictlyIncreasing()
    ensures forall a, b :: a in LevelAttempts && b in LevelAttempts && a < b ==> LevelAttempts[a] < LevelAttempts[b]
  {
  }

  /** Levels 2 and 3 have a budget but no start position. */
  lemma StartPosOnlyForFirstLevel()
    ensures LevelPos.Keys < LevelAttempts.Keys
    ensures LevelAttempts.Keys - LevelPos.Keys == {2, 3}
  {
    assert 2 in LevelAttempts;
    assert 2 !in LevelPos;
    assert LevelPos.Keys == {1};
    assert LevelAttempts.Keys == {1, 2, 3};
  }
}
