/** `utils/DAY`: the days of the week with their order digits. */
module Days {
  import opened Common

  datatype Day = MON | TUE | WED | THU | FRI | SAT | SUN

  /** `getId()`: the order digit each constant is declared with. */
  function Id(d: Day): (r: nat)
    ensures r < 7
  {
    match d
    case MON => 0
    case TUE => 1
    case WED => 2
    case THU => 3
    case FRI => 4
    case SAT => 5
    case SUN => 6
  }

  /** `DAY.values()`: the constants in declaration order. */
  const Values: seq<Day> := [MON, TUE, WED, THU, FRI, SAT, SUN]

  /** Declaration order is id order, every day is declared once, and no two
      days share an id. */
  lemma {:induction false} IdsFollowDeclarationOrder(a: Day, b: Day)
    ensures |Values| == 7 && a in Values
    ensures forall i :: 0 <= i < |Values| ==> Id(Values[i]) == i
    ensures Id(a) == Id(b) ==> a == b
  {
  }

  /** The day with a given id (the lookup `DAY.getById` stands for). */
  function FromId(i: int): (r: Option<Day>)
    ensures r.Some? <==> 0 <= i < 7
    ensures r.Some? ==> Id(r.value) == i
  {
    if 0 <= i < 7 then Some(Values[i]) else None
  }
}
