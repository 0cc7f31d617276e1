/** The values that live in the entity pools. Horizontal positions are
    percentages of the container width, vertical positions are pixels, times
    are milliseconds. */
module Entities {
  datatype Bullet = Bullet(x: real, y: real, powered: bool)
  datatype Enemy = Enemy(x: real, y: real, lastShot: real)
  datatype EnemyBullet = EnemyBullet(x: real, y: real)
  datatype PowerUpKind = Heart | Shield | Ammo
  datatype PowerUp = PowerUp(x: real, y: real, kind: PowerUpKind)
  /** An explosion marker remembers when it was spawned, for aging. */
  datatype Explosion = Explosion(x: real, y: real, born: real)
}
