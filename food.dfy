/** Food kinds, their weighted choice, and what one piece is worth. */
module Food {
  import opened Grid

  datatype FoodType = Normal | Big | Slow

  /** Weights of the three kinds; used as given, never normalised. */
  datatype FoodWeights = FoodWeights(normal: real, big: real, slow: real)

  /** A piece of food on a cell. */
  datatype Food = Food(pos: Pos, kind: FoodType)

  /** Weights the game starts with. */
  const DefaultWeights := FoodWeights(0.7, 0.2, 0.1)

  /** Weights a configured level without its own falls back to: only normal food. */
  const PlainWeights := FoodWeights(1.0, 0.0, 0.0)

  /** Points one piece is worth: double for big food. */
  function FoodScore(kind: FoodType): (points: nat)
    ensures points == 10 || points == 20
    ensures points == 20 <==> kind == Big
  {
    if kind == Big then 20 else 10
  }

  /** Threshold choice on a draw `r`: normal below the normal weight, big below the
      sum of normal and big, slow for everything else. The slow weight is never read. */
  function PickFoodType(w: FoodWeights, r: real): (t: FoodType)
    ensures t == Normal <==> r < w.normal
    ensures t == Big <==> w.normal <= r < w.normal + w.big
    ensures t == Slow <==> w.normal <= r && w.normal + w.big <= r
  {
    if r < w.normal then Normal
    else if r < w.normal + w.big then Big
    else Slow
  }
}
