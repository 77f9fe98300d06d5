/** Integer powers by addition chains: the table of builtins.c and what it costs. */
module PowerTable {
  const POWI_TABLE_SIZE: nat := 256

  // powi_table, 16 entries a row. For n, the entry j says that an optimal evaluation of x**n is x**j * x**(n-j).

  function Row0(j: nat): nat {
    match j
    case 0 => 0 case 1 => 1 case 2 => 1 case 3 => 2 case 4 => 2 case 5 => 3 case 6 => 3 case 7 => 4
    case 8 => 4 case 9 => 6 case 10 => 5 case 11 => 6 case 12 => 6 case 13 => 10 case 14 => 7 case 15 => 9
    case _ => 0
  }

  function Row1(j: nat): nat {
    match j
    case 0 => 8 case 1 => 16 case 2 => 9 case 3 => 16 case 4 => 10 case 5 => 12 case 6 => 11 case 7 => 13
    case 8 => 12 case 9 => 17 case 10 => 13 case 11 => 18 case 12 => 14 case 13 => 24 case 14 => 15 case 15 => 26
    case _ => 0
  }

  function Row2(j: nat): nat {
    match j
    case 0 => 16 case 1 => 17 case 2 => 17 case 3 => 19 case 4 => 18 case 5 => 33 case 6 => 19 case 7 => 26
    case 8 => 20 case 9 => 25 case 10 => 21 case 11 => 40 case 12 => 22 case 13 => 27 case 14 => 23 case 15 => 44
    case _ => 0
  }

  function Row3(j: nat): nat {
    match j
    case 0 => 24 case 1 => 32 case 2 => 25 case 3 => 34 case 4 => 26 case 5 => 29 case 6 => 27 case 7 => 44
    case 8 => 28 case 9 => 31 case 10 => 29 case 11 => 34 case 12 => 30 case 13 => 60 case 14 => 31 case 15 => 36
    case _ => 0
  }

  function Row4(j: nat): nat {
    match j
    case 0 => 32 case 1 => 64 case 2 => 33 case 3 => 34 case 4 => 34 case 5 => 46 case 6 => 35 case 7 => 37
    case 8 => 36 case 9 => 65 case 10 => 37 case 11 => 50 case 12 => 38 case 13 => 48 case 14 => 39 case 15 => 69
    case _ => 0
  }

  function Row5(j: nat): nat {
    match j
    case 0 => 40 case 1 => 49 case 2 => 41 case 3 => 43 case 4 => 42 case 5 => 51 case 6 => 43 case 7 => 58
    case 8 => 44 case 9 => 64 case 10 => 45 case 11 => 47 case 12 => 46 case 13 => 59 case 14 => 47 case 15 => 76
    case _ => 0
  }

  function Row6(j: nat): nat {
    match j
    case 0 => 48 case 1 => 65 case 2 => 49 case 3 => 66 case 4 => 50 case 5 => 67 case 6 => 51 case 7 => 66
    case 8 => 52 case 9 => 70 case 10 => 53 case 11 => 74 case 12 => 54 case 13 => 104 case 14 => 55 case 15 => 74
    case _ => 0
  }

  function Row7(j: nat): nat {
    match j
    case 0 => 56 case 1 => 64 case 2 => 57 case 3 => 69 case 4 => 58 case 5 => 78 case 6 => 59 case 7 => 68
    case 8 => 60 case 9 => 61 case 10 => 61 case 11 => 80 case 12 => 62 case 13 => 75 case 14 => 63 case 15 => 68
    case _ => 0
  }

  function Row8(j: nat): nat {
    match j
    case 0 => 64 case 1 => 65 case 2 => 65 case 3 => 128 case 4 => 66 case 5 => 129 case 6 => 67 case 7 => 90
    case 8 => 68 case 9 => 73 case 10 => 69 case 11 => 131 case 12 => 70 case 13 => 94 case 14 => 71 case 15 => 88
    case _ => 0
  }

  function Row9(j: nat): nat {
    match j
    case 0 => 72 case 1 => 128 case 2 => 73 case 3 => 98 case 4 => 74 case 5 => 132 case 6 => 75 case 7 => 121
    case 8 => 76 case 9 => 102 case 10 => 77 case 11 => 124 case 12 => 78 case 13 => 132 case 14 => 79 case 15 => 106
    case _ => 0
  }

  function Row10(j: nat): nat {
    match j
    case 0 => 80 case 1 => 97 case 2 => 81 case 3 => 160 case 4 => 82 case 5 => 99 case 6 => 83 case 7 => 134
    case 8 => 84 case 9 => 86 case 10 => 85 case 11 => 95 case 12 => 86 case 13 => 160 case 14 => 87 case 15 => 100
    case _ => 0
  }

  function Row11(j: nat): nat {
    match j
    case 0 => 88 case 1 => 113 case 2 => 89 case 3 => 98 case 4 => 90 case 5 => 107 case 6 => 91 case 7 => 122
    case 8 => 92 case 9 => 111 case 10 => 93 case 11 => 102 case 12 => 94 case 13 => 126 case 14 => 95 case 15 => 150
    case _ => 0
  }

  function Row12(j: nat): nat {
    match j
    case 0 => 96 case 1 => 128 case 2 => 97 case 3 => 130 case 4 => 98 case 5 => 133 case 6 => 99 case 7 => 195
    case 8 => 100 case 9 => 128 case 10 => 101 case 11 => 123 case 12 => 102 case 13 => 164 case 14 => 103 case 15 => 138
    case _ => 0
  }

  function Row13(j: nat): nat {
    match j
    case 0 => 104 case 1 => 145 case 2 => 105 case 3 => 146 case 4 => 106 case 5 => 109 case 6 => 107 case 7 => 149
    case 8 => 108 case 9 => 200 case 10 => 109 case 11 => 146 case 12 => 110 case 13 => 170 case 14 => 111 case 15 => 157
    case _ => 0
  }

  function Row14(j: nat): nat {
    match j
    case 0 => 112 case 1 => 128 case 2 => 113 case 3 => 130 case 4 => 114 case 5 => 182 case 6 => 115 case 7 => 132
    case 8 => 116 case 9 => 200 case 10 => 117 case 11 => 132 case 12 => 118 case 13 => 158 case 14 => 119 case 15 => 206
    case _ => 0
  }

  function Row15(j: nat): nat {
    match j
    case 0 => 120 case 1 => 240 case 2 => 121 case 3 => 162 case 4 => 122 case 5 => 147 case 6 => 123 case 7 => 152
    case 8 => 124 case 9 => 166 case 10 => 125 case 11 => 214 case 12 => 126 case 13 => 138 case 14 => 127 case 15 => 153
    case _ => 0
  }

  function Table(n: nat): nat {
    match n / 16
    case 0 => Row0(n % 16)
    case 1 => Row1(n % 16)
    case 2 => Row2(n % 16)
    case 3 => Row3(n % 16)
    case 4 => Row4(n % 16)
    case 5 => Row5(n % 16)
    case 6 => Row6(n % 16)
    case 7 => Row7(n % 16)
    case 8 => Row8(n % 16)
    case 9 => Row9(n % 16)
    case 10 => Row10(n % 16)
    case 11 => Row11(n % 16)
    case 12 => Row12(n % 16)
    case 13 => Row13(n % 16)
    case 14 => Row14(n % 16)
    case 15 => Row15(n % 16)
    case _ => 0
  }

  /** What the rest needs to know of the table: entries are smaller than their index, and half of an even one. */
  predicate Entry(n: nat, j: nat) {
    0 < j < n && (n % 2 == 0 ==> j == n / 2)
  }

  lemma GoodEntry(n: nat)
    requires 2 <= n < POWI_TABLE_SIZE
    ensures Entry(n, Table(n))
  {
    hide Table;
    if n < 128 { GoodBelow(n); } else { GoodAbove(n); }
  }

  lemma GoodBelow(n: nat)
    requires 2 <= n < 128
    ensures Entry(n, Table(n))
  {}

  lemma GoodAbove(n: nat)
    requires 128 <= n < POWI_TABLE_SIZE
    ensures Entry(n, Table(n))
  {}
}
