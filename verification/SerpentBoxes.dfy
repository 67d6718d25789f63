/** Serpent's S-boxes as the bit-sliced instruction sequences of ciphers/serpent.c. */
module SerpentBoxes {
  import opened BitSlice

  /** The five registers after an instruction sequence, by position. */
  datatype Regs<T> = Regs(r0: T, r1: T, r2: T, r3: T, r4: T)

  function S0<T>(l: Logic<T>, r0: T, r1: T, r2: T, r3: T): Regs<T> {
    var r3 := l.xor(r3, r0);
    var r4 := r1;
    var r1 := l.and(r1, r3);
    var r4 := l.xor(r4, r2);
    var r1 := l.xor(r1, r0);
    var r0 := l.or(r0, r3);
    var r0 := l.xor(r0, r4);
    var r4 := l.xor(r4, r3);
    var r3 := l.xor(r3, r2);
    var r2 := l.or(r2, r1);
    var r2 := l.xor(r2, r4);
    var r4 := l.not(r4);
    var r4 := l.or(r4, r1);
    var r1 := l.xor(r1, r3);
    var r1 := l.xor(r1, r4);
    var r3 := l.or(r3, r0);
    var r1 := l.xor(r1, r3);
    var r4 := l.xor(r4, r3);
    Regs(r0, r1, r2, r3, r4)
  }

  function S1<T>(l: Logic<T>, r0: T, r1: T, r2: T, r3: T): Regs<T> {
    var r0 := l.not(r0);
    var r2 := l.not(r2);
    var r4 := r0;
    var r0 := l.and(r0, r1);
    var r2 := l.xor(r2, r0);
    var r0 := l.or(r0, r3);
    var r3 := l.xor(r3, r2);
    var r1 := l.xor(r1, r0);
    var r0 := l.xor(r0, r4);
    var r4 := l.or(r4, r1);
    var r1 := l.xor(r1, r3);
    var r2 := l.or(r2, r0);
    var r2 := l.and(r2, r4);
    var r0 := l.xor(r0, r1);
    var r1 := l.and(r1, r2);
    var r1 := l.xor(r1, r0);
    var r0 := l.and(r0, r2);
    var r0 := l.xor(r0, r4);
    Regs(r0, r1, r2, r3, r4)
  }

  function S2<T>(l: Logic<T>, r0: T, r1: T, r2: T, r3: T): Regs<T> {
    var r4 := r0;
    var r0 := l.and(r0, r2);
    var r0 := l.xor(r0, r3);
    var r2 := l.xor(r2, r1);
    var r2 := l.xor(r2, r0);
    var r3 := l.or(r3, r4);
    var r3 := l.xor(r3, r1);
    var r4 := l.xor(r4, r2);
    var r1 := r3;
    var r3 := l.or(r3, r4);
    var r3 := l.xor(r3, r0);
    var r0 := l.and(r0, r1);
    var r4 := l.xor(r4, r0);
    var r1 := l.xor(r1, r3);
    var r1 := l.xor(r1, r4);
    var r4 := l.not(r4);
    Regs(r0, r1, r2, r3, r4)
  }

  function S3<T>(l: Logic<T>, r0: T, r1: T, r2: T, r3: T): Regs<T> {
    var r4 := r0;
    var r0 := l.or(r0, r3);
    var r3 := l.xor(r3, r1);
    var r1 := l.and(r1, r4);
    var r4 := l.xor(r4, r2);
    var r2 := l.xor(r2, r3);
    var r3 := l.and(r3, r0);
    var r4 := l.or(r4, r1);
    var r3 := l.xor(r3, r4);
    var r0 := l.xor(r0, r1);
    var r4 := l.and(r4, r0);
    var r1 := l.xor(r1, r3);
    var r4 := l.xor(r4, r2);
    var r1 := l.or(r1, r0);
    var r1 := l.xor(r1, r2);
    var r0 := l.xor(r0, r3);
    var r2 := r1;
    var r1 := l.or(r1, r3);
    var r1 := l.xor(r1, r0);
    Regs(r0, r1, r2, r3, r4)
  }

  function S4<T>(l: Logic<T>, r0: T, r1: T, r2: T, r3: T): Regs<T> {
    var r1 := l.xor(r1, r3);
    var r3 := l.not(r3);
    var r2 := l.xor(r2, r3);
    var r3 := l.xor(r3, r0);
    var r4 := r1;
    var r1 := l.and(r1, r3);
    var r1 := l.xor(r1, r2);
    var r4 := l.xor(r4, r3);
    var r0 := l.xor(r0, r4);
    var r2 := l.and(r2, r4);
    var r2 := l.xor(r2, r0);
    var r0 := l.and(r0, r1);
    var r3 := l.xor(r3, r0);
    var r4 := l.or(r4, r1);
    var r4 := l.xor(r4, r0);
    var r0 := l.or(r0, r3);
    var r0 := l.xor(r0, r2);
    var r2 := l.and(r2, r3);
    var r0 := l.not(r0);
    var r4 := l.xor(r4, r2);
    Regs(r0, r1, r2, r3, r4)
  }

  function S5<T>(l: Logic<T>, r0: T, r1: T, r2: T, r3: T): Regs<T> {
    var r0 := l.xor(r0, r1);
    var r1 := l.xor(r1, r3);
    var r3 := l.not(r3);
    var r4 := r1;
    var r1 := l.and(r1, r0);
    var r2 := l.xor(r2, r3);
    var r1 := l.xor(r1, r2);
    var r2 := l.or(r2, r4);
    var r4 := l.xor(r4, r3);
    var r3 := l.and(r3, r1);
    var r3 := l.xor(r3, r0);
    var r4 := l.xor(r4, r1);
    var r4 := l.xor(r4, r2);
    var r2 := l.xor(r2, r0);
    var r0 := l.and(r0, r3);
    var r2 := l.not(r2);
    var r0 := l.xor(r0, r4);
    var r4 := l.or(r4, r3);
    var r2 := l.xor(r2, r4);
    Regs(r0, r1, r2, r3, r4)
  }

  function S6<T>(l: Logic<T>, r0: T, r1: T, r2: T, r3: T): Regs<T> {
    var r2 := l.not(r2);
    var r4 := r3;
    var r3 := l.and(r3, r0);
    var r0 := l.xor(r0, r4);
    var r3 := l.xor(r3, r2);
    var r2 := l.or(r2, r4);
    var r1 := l.xor(r1, r3);
    var r2 := l.xor(r2, r0);
    var r0 := l.or(r0, r1);
    var r2 := l.xor(r2, r1);
    var r4 := l.xor(r4, r0);
    var r0 := l.or(r0, r3);
    var r0 := l.xor(r0, r2);
    var r4 := l.xor(r4, r3);
    var r4 := l.xor(r4, r0);
    var r3 := l.not(r3);
    var r2 := l.and(r2, r4);
    var r2 := l.xor(r2, r3);
    Regs(r0, r1, r2, r3, r4)
  }

  function S7<T>(l: Logic<T>, r0: T, r1: T, r2: T, r3: T): Regs<T> {
    var r4 := r2;
    var r2 := l.and(r2, r1);
    var r2 := l.xor(r2, r3);
    var r3 := l.and(r3, r1);
    var r4 := l.xor(r4, r2);
    var r2 := l.xor(r2, r1);
    var r1 := l.xor(r1, r0);
    var r0 := l.or(r0, r4);
    var r0 := l.xor(r0, r2);
    var r3 := l.xor(r3, r1);
    var r2 := l.xor(r2, r3);
    var r3 := l.and(r3, r0);
    var r3 := l.xor(r3, r4);
    var r4 := l.xor(r4, r2);
    var r2 := l.and(r2, r0);
    var r4 := l.not(r4);
    var r2 := l.xor(r2, r4);
    var r4 := l.and(r4, r0);
    var r1 := l.xor(r1, r3);
    var r4 := l.xor(r4, r1);
    Regs(r0, r1, r2, r3, r4)
  }

  function I0<T>(l: Logic<T>, r0: T, r1: T, r2: T, r3: T): Regs<T> {
    var r2 := l.not(r2);
    var r4 := r1;
    var r1 := l.or(r1, r0);
    var r4 := l.not(r4);
    var r1 := l.xor(r1, r2);
    var r2 := l.or(r2, r4);
    var r1 := l.xor(r1, r3);
    var r0 := l.xor(r0, r4);
    var r2 := l.xor(r2, r0);
    var r0 := l.and(r0, r3);
    var r4 := l.xor(r4, r0);
    var r0 := l.or(r0, r1);
    var r0 := l.xor(r0, r2);
    var r3 := l.xor(r3, r4);
    var r2 := l.xor(r2, r1);
    var r3 := l.xor(r3, r0);
    var r3 := l.xor(r3, r1);
    var r2 := l.and(r2, r3);
    var r4 := l.xor(r4, r2);
    Regs(r0, r1, r2, r3, r4)
  }

  function I1<T>(l: Logic<T>, r0: T, r1: T, r2: T, r3: T): Regs<T> {
    var r4 := r1;
    var r1 := l.xor(r1, r3);
    var r3 := l.and(r3, r1);
    var r4 := l.xor(r4, r2);
    var r3 := l.xor(r3, r0);
    var r0 := l.or(r0, r1);
    var r2 := l.xor(r2, r3);
    var r0 := l.xor(r0, r4);
    var r0 := l.or(r0, r2);
    var r1 := l.xor(r1, r3);
    var r0 := l.xor(r0, r1);
    var r1 := l.or(r1, r3);
    var r1 := l.xor(r1, r0);
    var r4 := l.not(r4);
    var r4 := l.xor(r4, r1);
    var r1 := l.or(r1, r0);
    var r1 := l.xor(r1, r0);
    var r1 := l.or(r1, r4);
    var r3 := l.xor(r3, r1);
    Regs(r0, r1, r2, r3, r4)
  }

  function I2<T>(l: Logic<T>, r0: T, r1: T, r2: T, r3: T): Regs<T> {
    var r2 := l.xor(r2, r3);
    var r3 := l.xor(r3, r0);
    var r4 := r3;
    var r3 := l.and(r3, r2);
    var r3 := l.xor(r3, r1);
    var r1 := l.or(r1, r2);
    var r1 := l.xor(r1, r4);
    var r4 := l.and(r4, r3);
    var r2 := l.xor(r2, r3);
    var r4 := l.and(r4, r0);
    var r4 := l.xor(r4, r2);
    var r2 := l.and(r2, r1);
    var r2 := l.or(r2, r0);
    var r3 := l.not(r3);
    var r2 := l.xor(r2, r3);
    var r0 := l.xor(r0, r3);
    var r0 := l.and(r0, r1);
    var r3 := l.xor(r3, r4);
    var r3 := l.xor(r3, r0);
    Regs(r0, r1, r2, r3, r4)
  }

  function I3<T>(l: Logic<T>, r0: T, r1: T, r2: T, r3: T): Regs<T> {
    var r4 := r2;
    var r2 := l.xor(r2, r1);
    var r1 := l.and(r1, r2);
    var r1 := l.xor(r1, r0);
    var r0 := l.and(r0, r4);
    var r4 := l.xor(r4, r3);
    var r3 := l.or(r3, r1);
    var r3 := l.xor(r3, r2);
    var r0 := l.xor(r0, r4);
    var r2 := l.xor(r2, r0);
    var r0 := l.or(r0, r3);
    var r0 := l.xor(r0, r1);
    var r4 := l.xor(r4, r2);
    var r2 := l.and(r2, r3);
    var r1 := l.or(r1, r3);
    var r1 := l.xor(r1, r2);
    var r4 := l.xor(r4, r0);
    var r2 := l.xor(r2, r4);
    Regs(r0, r1, r2, r3, r4)
  }

  function I4<T>(l: Logic<T>, r0: T, r1: T, r2: T, r3: T): Regs<T> {
    var r4 := r2;
    var r2 := l.and(r2, r3);
    var r2 := l.xor(r2, r1);
    var r1 := l.or(r1, r3);
    var r1 := l.and(r1, r0);
    var r4 := l.xor(r4, r2);
    var r4 := l.xor(r4, r1);
    var r1 := l.and(r1, r2);
    var r0 := l.not(r0);
    var r3 := l.xor(r3, r4);
    var r1 := l.xor(r1, r3);
    var r3 := l.and(r3, r0);
    var r3 := l.xor(r3, r2);
    var r0 := l.xor(r0, r1);
    var r2 := l.and(r2, r0);
    var r3 := l.xor(r3, r0);
    var r2 := l.xor(r2, r4);
    var r2 := l.or(r2, r3);
    var r3 := l.xor(r3, r0);
    var r2 := l.xor(r2, r1);
    Regs(r0, r1, r2, r3, r4)
  }

  function I5<T>(l: Logic<T>, r0: T, r1: T, r2: T, r3: T): Regs<T> {
    var r1 := l.not(r1);
    var r4 := r3;
    var r2 := l.xor(r2, r1);
    var r3 := l.or(r3, r0);
    var r3 := l.xor(r3, r2);
    var r2 := l.or(r2, r1);
    var r2 := l.and(r2, r0);
    var r4 := l.xor(r4, r3);
    var r2 := l.xor(r2, r4);
    var r4 := l.or(r4, r0);
    var r4 := l.xor(r4, r1);
    var r1 := l.and(r1, r2);
    var r1 := l.xor(r1, r3);
    var r4 := l.xor(r4, r2);
    var r3 := l.and(r3, r4);
    var r4 := l.xor(r4, r1);
    var r3 := l.xor(r3, r0);
    var r3 := l.xor(r3, r4);
    var r4 := l.not(r4);
    Regs(r0, r1, r2, r3, r4)
  }

  function I6<T>(l: Logic<T>, r0: T, r1: T, r2: T, r3: T): Regs<T> {
    var r0 := l.xor(r0, r2);
    var r4 := r2;
    var r2 := l.and(r2, r0);
    var r4 := l.xor(r4, r3);
    var r2 := l.not(r2);
    var r3 := l.xor(r3, r1);
    var r2 := l.xor(r2, r3);
    var r4 := l.or(r4, r0);
    var r0 := l.xor(r0, r2);
    var r3 := l.xor(r3, r4);
    var r4 := l.xor(r4, r1);
    var r1 := l.and(r1, r3);
    var r1 := l.xor(r1, r0);
    var r0 := l.xor(r0, r3);
    var r0 := l.or(r0, r2);
    var r3 := l.xor(r3, r1);
    var r4 := l.xor(r4, r0);
    Regs(r0, r1, r2, r3, r4)
  }

  function I7<T>(l: Logic<T>, r0: T, r1: T, r2: T, r3: T): Regs<T> {
    var r4 := r2;
    var r2 := l.xor(r2, r0);
    var r0 := l.and(r0, r3);
    var r2 := l.not(r2);
    var r4 := l.or(r4, r3);
    var r3 := l.xor(r3, r1);
    var r1 := l.or(r1, r0);
    var r0 := l.xor(r0, r2);
    var r2 := l.and(r2, r4);
    var r1 := l.xor(r1, r2);
    var r2 := l.xor(r2, r0);
    var r0 := l.or(r0, r2);
    var r3 := l.and(r3, r4);
    var r0 := l.xor(r0, r3);
    var r4 := l.xor(r4, r1);
    var r3 := l.xor(r3, r4);
    var r4 := l.or(r4, r0);
    var r3 := l.xor(r3, r2);
    var r4 := l.xor(r4, r2);
    Regs(r0, r1, r2, r3, r4)
  }

  // ---------- the boxes, outputs in the order the macros name ----------

  /** The order in which box n leaves its four outputs in its five register positions. */
  function AfterS<T>(n: nat, o: Regs<T>): Quad<T>
    requires n < 8
  {
    match n
    case 0 => Quad(o.r1, o.r4, o.r2, o.r0)
    case 1 => Quad(o.r2, o.r0, o.r3, o.r1)
    case 2 => Quad(o.r2, o.r3, o.r1, o.r4)
    case 3 => Quad(o.r1, o.r2, o.r3, o.r4)
    case 4 => Quad(o.r1, o.r4, o.r0, o.r3)
    case 5 => Quad(o.r1, o.r3, o.r0, o.r2)
    case 6 => Quad(o.r0, o.r1, o.r4, o.r2)
    case _ => Quad(o.r2, o.r4, o.r3, o.r0)
  }

  function AfterI<T>(n: nat, o: Regs<T>): Quad<T>
    requires n < 8
  {
    match n
    case 0 => Quad(o.r0, o.r4, o.r1, o.r3)
    case 1 => Quad(o.r4, o.r0, o.r3, o.r2)
    case 2 => Quad(o.r1, o.r4, o.r2, o.r3)
    case 3 => Quad(o.r3, o.r0, o.r2, o.r1)
    case 4 => Quad(o.r0, o.r3, o.r2, o.r4)
    case 5 => Quad(o.r1, o.r4, o.r3, o.r2)
    case 6 => Quad(o.r1, o.r2, o.r4, o.r3)
    case _ => Quad(o.r3, o.r0, o.r1, o.r4)
  }

  function Box<T>(l: Logic<T>, n: nat, x: Quad<T>): Quad<T>
    requires n < 8
  {
    match n
    case 0 => AfterS(0, S0(l, x.a, x.b, x.c, x.d))
    case 1 => AfterS(1, S1(l, x.a, x.b, x.c, x.d))
    case 2 => AfterS(2, S2(l, x.a, x.b, x.c, x.d))
    case 3 => AfterS(3, S3(l, x.a, x.b, x.c, x.d))
    case 4 => AfterS(4, S4(l, x.a, x.b, x.c, x.d))
    case 5 => AfterS(5, S5(l, x.a, x.b, x.c, x.d))
    case 6 => AfterS(6, S6(l, x.a, x.b, x.c, x.d))
    case _ => AfterS(7, S7(l, x.a, x.b, x.c, x.d))
  }

  function InvBox<T>(l: Logic<T>, n: nat, x: Quad<T>): Quad<T>
    requires n < 8
  {
    match n
    case 0 => AfterI(0, I0(l, x.a, x.b, x.c, x.d))
    case 1 => AfterI(1, I1(l, x.a, x.b, x.c, x.d))
    case 2 => AfterI(2, I2(l, x.a, x.b, x.c, x.d))
    case 3 => AfterI(3, I3(l, x.a, x.b, x.c, x.d))
    case 4 => AfterI(4, I4(l, x.a, x.b, x.c, x.d))
    case 5 => AfterI(5, I5(l, x.a, x.b, x.c, x.d))
    case 6 => AfterI(6, I6(l, x.a, x.b, x.c, x.d))
    case _ => AfterI(7, I7(l, x.a, x.b, x.c, x.d))
  }

  lemma BoxRespects<A(!new), B>(l: Logic<A>, m: Logic<B>, h: A -> B, n: nat, x: Quad<A>)
    requires Respects(l, m, h) && n < 8
    ensures Map(h, Box(l, n, x)) == Box(m, n, Map(h, x))
  {
  }

  lemma InvBoxRespects<A(!new), B>(l: Logic<A>, m: Logic<B>, h: A -> B, n: nat, x: Quad<A>)
    requires Respects(l, m, h) && n < 8
    ensures Map(h, InvBox(l, n, x)) == InvBox(m, n, Map(h, x))
  {
  }

  // ---------- what the boxes compute ----------

  /** The eight S-boxes of the Serpent proposal (Anderson, Biham and Knudsen), as tables. */
  function Table(n: nat): (t: seq<nat>)
    requires n < 8
    ensures |t| == 16
  {
    match n
    case 0 => [3, 8, 15, 1, 10, 6, 5, 11, 14, 13, 4, 2, 7, 0, 9, 12]
    case 1 => [15, 12, 2, 7, 9, 0, 5, 10, 1, 11, 14, 8, 6, 13, 3, 4]
    case 2 => [8, 6, 7, 9, 3, 12, 10, 15, 13, 1, 14, 4, 0, 11, 5, 2]
    case 3 => [0, 15, 11, 8, 12, 9, 6, 3, 13, 1, 2, 4, 10, 7, 5, 14]
    case 4 => [1, 15, 8, 3, 12, 0, 11, 6, 2, 5, 4, 10, 9, 14, 7, 13]
    case 5 => [15, 5, 2, 11, 4, 10, 9, 12, 0, 3, 14, 8, 13, 6, 7, 1]
    case 6 => [7, 2, 12, 5, 8, 4, 6, 11, 14, 9, 1, 15, 13, 3, 10, 0]
    case _ => [1, 13, 15, 0, 14, 8, 2, 11, 7, 4, 12, 10, 9, 3, 5, 6]
  }

  /** The four bits of one position as a number, the first word lowest. */
  function Nibble(x: Quad<bool>): (v: nat)
    ensures v < 16
  {
    (if x.a then 1 else 0) + (if x.b then 2 else 0) + (if x.c then 4 else 0) + (if x.d then 8 else 0)
  }

  lemma Box0OfBits(x: Quad<bool>)
    ensures Nibble(Box(Bools(), 0, x)) == Table(0)[Nibble(x)]
  {
  }

  lemma Box1OfBits(x: Quad<bool>)
    ensures Nibble(Box(Bools(), 1, x)) == Table(1)[Nibble(x)]
  {
  }

  lemma Box2OfBits(x: Quad<bool>)
    ensures Nibble(Box(Bools(), 2, x)) == Table(2)[Nibble(x)]
  {
  }

  lemma Box3OfBits(x: Quad<bool>)
    ensures Nibble(Box(Bools(), 3, x)) == Table(3)[Nibble(x)]
  {
  }

  lemma Box4OfBits(x: Quad<bool>)
    ensures Nibble(Box(Bools(), 4, x)) == Table(4)[Nibble(x)]
  {
  }

  lemma Box5OfBits(x: Quad<bool>)
    ensures Nibble(Box(Bools(), 5, x)) == Table(5)[Nibble(x)]
  {
  }

  lemma Box6OfBits(x: Quad<bool>)
    ensures Nibble(Box(Bools(), 6, x)) == Table(6)[Nibble(x)]
  {
  }

  lemma Box7OfBits(x: Quad<bool>)
    ensures Nibble(Box(Bools(), 7, x)) == Table(7)[Nibble(x)]
  {
  }

  lemma BoxOfBits(n: nat, x: Quad<bool>)
    requires n < 8
    ensures Nibble(Box(Bools(), n, x)) == Table(n)[Nibble(x)]
  {
    hide *;
    match n {
      case 0 => Box0OfBits(x);
      case 1 => Box1OfBits(x);
      case 2 => Box2OfBits(x);
      case 3 => Box3OfBits(x);
      case 4 => Box4OfBits(x);
      case 5 => Box5OfBits(x);
      case 6 => Box6OfBits(x);
      case _ => Box7OfBits(x);
    }
  }

  lemma LowInvBoxOfBits(n: nat, x: Quad<bool>)
    requires n < 4
    ensures InvBox(Bools(), n, Box(Bools(), n, x)) == x
  {
  }

  lemma HighInvBoxOfBits(n: nat, x: Quad<bool>)
    requires 4 <= n < 8
    ensures InvBox(Bools(), n, Box(Bools(), n, x)) == x
  {
  }

  /** The instruction sequence of box n looks each bit position up in table n. */
  lemma BoxLooksUp(n: nat, x: Quad<bv32>, i: bv32)
    requires n < 8 && i < 32
    ensures Nibble(Map(Lane(i), Box(Words(), n, x))) == Table(n)[Nibble(Map(Lane(i), x))]
  {
    hide Box, Words, Bools, Lane, Table, Nibble;
    LaneRespects(i);
    BoxRespects(Words(), Bools(), Lane(i), n, x);
    BoxOfBits(n, Map(Lane(i), x));
  }

  /** Each inverse box undoes its box on whole words, because it does so at every bit position. */
  lemma InvBoxOfBox(n: nat, x: Quad<bv32>)
    requires n < 8
    ensures InvBox(Words(), n, Box(Words(), n, x)) == x
  {
    hide Box, InvBox, Words, Bools, Lane;
    var y := Box(Words(), n, x);
    forall i: bv32 | i < 32
      ensures SameLane(InvBox(Words(), n, y), x, i)
    {
      var h := Lane(i);
      LaneRespects(i);
      BoxRespects(Words(), Bools(), h, n, x);
      InvBoxRespects(Words(), Bools(), h, n, y);
      if n < 4 {
        LowInvBoxOfBits(n, Map(h, x));
      } else {
        HighInvBoxOfBits(n, Map(h, x));
      }
    }
    SameLanes(InvBox(Words(), n, y), x);
  }
}
