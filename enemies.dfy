/** The enemy catalog: three factories, each building a fresh enemy at
    full health with no intent planned yet. */
module Enemies {
  import Combat
  import opened Wrappers

  /** A 20 hp zombie. */
  method ShamblingZombie() returns (e: Combat.Enemy)
    ensures fresh(e)
    ensures e.id == "zombie_1" && e.name == "Shambling Zombie" && e.spriteIcon == "\U{1F9DF}"
    ensures e.maxHp == 20 && e.hp == 20 && e.currentIntent == None
  {
    e := new Combat.Enemy("zombie_1", "Shambling Zombie", 20, "\U{1F9DF}");
  }

  /** A 10 hp dog. */
  method ZombieDog() returns (e: Combat.Enemy)
    ensures fresh(e)
    ensures e.id == "dog_1" && e.name == "Infected Dog" && e.spriteIcon == "\U{1F415}"
    ensures e.maxHp == 10 && e.hp == 10 && e.currentIntent == None
  {
    e := new Combat.Enemy("dog_1", "Infected Dog", 10, "\U{1F415}");
  }

  /** A 40 hp mutant. */
  method Licker() returns (e: Combat.Enemy)
    ensures fresh(e)
    ensures e.id == "licker_1" && e.name == "Licker Mutant" && e.spriteIcon == "\U{1F9E0}"
    ensures e.maxHp == 40 && e.hp == 40 && e.currentIntent == None
  {
    e := new Combat.Enemy("licker_1", "Licker Mutant", 40, "\U{1F9E0}");
  }
}
