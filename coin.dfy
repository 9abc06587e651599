/** The coin record: a fixed circle and a one-way `collected` flag. */
module CoinEntity {
  import opened Level

  class Coin {
    const x: real
    const y: real
    const r: real
    var collected: bool

    constructor (spawn: CoinSpawn)
      ensures x == spawn.x && y == spawn.y && r == spawn.r
      ensures !collected
    {
      x := spawn.x;
      y := spawn.y;
      r := spawn.r;
      collected := false;
    }
  }
}
