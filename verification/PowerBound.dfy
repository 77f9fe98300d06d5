/** powi needs at most 2 * bits(n) - 2 products. */
module PowerBound {
  import opened PowerTable
  import opened Powers

  /** A list of exponents, largest first, that an evaluation could go through; it ends with 1. */
  datatype Steps = One | Step(n: nat, rest: Steps)

  predicate Has(l: Steps, k: nat) {
    match l
    case One => k == 1
    case Step(n, r) => k == n || Has(r, k)
  }

  /** Every exponent of the list is split by the table into two exponents after it. */
  predicate Splits(l: Steps) {
    match l
    case One => true
    case Step(n, r) => var t := Table(n); t < n && Has(r, t) && Has(r, n - t) && Splits(r)
  }

  function Length(l: Steps): nat {
    match l
    case One => 1
    case Step(_, r) => 1 + Length(r)
  }

  function Members(l: Steps): (s: set<nat>)
    ensures |s| <= Length(l)
  {
    match l
    case One => {1}
    case Step(n, r) => Members(r) + {n}
  }

  lemma {:induction false} ChainInside(l: Steps, n: nat)
    requires Splits(l) && Has(l, n) && 1 <= n < POWI_TABLE_SIZE
    ensures Chain(n) <= Members(l)
  {
    hide Table, Chain;
    if n == 1 {
      ChainOne();
      OneMember(l);
    } else if l.Step? {
      OwnChain(n);
      if n == l.n && !Has(l.rest, n) {
        ChainInside(l.rest, Table(n));
        ChainInside(l.rest, n - Table(n));
      } else {
        ChainInside(l.rest, n);
      }
    }
  }

  lemma ChainOne()
    ensures Chain(1) == {1}
  {}

  lemma {:induction false} OneMember(l: Steps)
    ensures 1 in Members(l)
  {
    if l.Step? { OneMember(l.rest); }
  }

  /** There is a list of at most cap exponents, each split by the table into two others, with n on it. */
  ghost predicate Evaluated(n: nat, cap: nat) {
    exists l :: Splits(l) && Has(l, n) && Length(l) <= cap
  }

  lemma ByEvaluation(n: nat, cap: nat)
    requires Evaluated(n, cap) && 1 <= n < POWI_TABLE_SIZE
    ensures |Chain(n)| <= cap
  {
    hide Table, Chain, Splits, Has, Length;
    var l :| Splits(l) && Has(l, n) && Length(l) <= cap;
    ChainInside(l, n);
    SubsetSize(Chain(n), Members(l));
  }

  lemma Listed(l: Steps, n: nat, cap: nat)
    requires Splits(l) && Has(l, n) && Length(l) <= cap
    ensures Evaluated(n, cap)
  {
    hide Splits, Has, Length;
  }

  lemma {:induction false} SubsetSize(a: set<nat>, b: set<nat>)
    requires a <= b
    ensures |a| <= |b|
  {
    if a != {} {
      var k :| k in a;
      SubsetSize(a - {k}, b - {k});
    }
  }

  lemma Bits2A(n: nat)
    requires n in {3}
    ensures Evaluated(n, 3)
  {
    hide Evaluated;
    Listed(Step(3, Step(2, One)), n, 3);
  }

  lemma Bits3A(n: nat)
    requires n in {5, 7}
    ensures Evaluated(n, 5)
  {
    hide Evaluated;
    if n == 5 {
      Listed(Step(5, Step(3, Step(2, One))), n, 5);
    } else {
      Listed(Step(7, Step(4, Step(3, Step(2, One)))), n, 5);
    }
  }

  lemma Bits4A(n: nat)
    requires n in {9, 11, 15}
    ensures Evaluated(n, 7)
  {
    hide Evaluated;
    if n == 9 || n == 15 {
      Listed(Step(15, Step(9, Step(6, Step(3, Step(2, One))))), n, 7);
    } else {
      Listed(Step(11, Step(6, Step(5, Step(3, Step(2, One))))), n, 7);
    }
  }

  lemma Bits4B(n: nat)
    requires n in {13}
    ensures Evaluated(n, 7)
  {
    hide Evaluated;
    Listed(Step(13, Step(10, Step(5, Step(3, Step(2, One))))), n, 7);
  }

  lemma Bits5A(n: nat)
    requires n in {17, 19, 25}
    ensures Evaluated(n, 8)
  {
    hide Evaluated;
    if n == 17 || n == 25 {
      Listed(Step(25, Step(17, Step(16, Step(8, Step(4, Step(2, One)))))), n, 8);
    } else {
      Listed(Step(19, Step(16, Step(8, Step(4, Step(3, Step(2, One)))))), n, 8);
    }
  }

  lemma Bits5B(n: nat)
    requires n in {21, 23, 27}
    ensures Evaluated(n, 8)
  {
    hide Evaluated;
    if n == 21 {
      Listed(Step(21, Step(12, Step(9, Step(6, Step(3, Step(2, One)))))), n, 8);
    } else if n == 23 {
      Listed(Step(23, Step(13, Step(10, Step(5, Step(3, Step(2, One)))))), n, 8);
    } else {
      Listed(Step(27, Step(18, Step(9, Step(6, Step(3, Step(2, One)))))), n, 8);
    }
  }

  lemma Bits5C(n: nat)
    requires n in {29, 31}
    ensures Evaluated(n, 8)
  {
    hide Evaluated;
    if n == 29 {
      Listed(Step(29, Step(24, Step(12, Step(6, Step(5, Step(3, Step(2, One))))))), n, 8);
    } else {
      Listed(Step(31, Step(26, Step(13, Step(10, Step(5, Step(3, Step(2, One))))))), n, 8);
    }
  }

  lemma Bits6A(n: nat)
    requires n in {33, 35, 37}
    ensures Evaluated(n, 9)
  {
    hide Evaluated;
    if n == 33 || n == 37 {
      Listed(Step(37, Step(33, Step(17, Step(16, Step(8, Step(4, Step(2, One))))))), n, 9);
    } else {
      Listed(Step(35, Step(19, Step(16, Step(8, Step(4, Step(3, Step(2, One))))))), n, 9);
    }
  }

  lemma Bits6B(n: nat)
    requires n in {39, 41}
    ensures Evaluated(n, 9)
  {
    hide Evaluated;
    if n == 39 {
      Listed(Step(39, Step(26, Step(13, Step(10, Step(5, Step(3, Step(2, One))))))), n, 9);
    } else {
      Listed(Step(41, Step(25, Step(17, Step(16, Step(8, Step(4, Step(2, One))))))), n, 9);
    }
  }

  lemma Bits6C(n: nat)
    requires n in {43, 45}
    ensures Evaluated(n, 9)
  {
    hide Evaluated;
    if n == 43 {
      Listed(Step(43, Step(40, Step(20, Step(10, Step(5, Step(3, Step(2, One))))))), n, 9);
    } else {
      Listed(Step(45, Step(27, Step(18, Step(9, Step(6, Step(3, Step(2, One))))))), n, 9);
    }
  }

  lemma Bits6D(n: nat)
    requires n in {49, 51}
    ensures Evaluated(n, 9)
  {
    hide Evaluated;
    if n == 49 {
      Listed(Step(49, Step(32, Step(17, Step(16, Step(8, Step(4, Step(2, One))))))), n, 9);
    } else {
      Listed(Step(51, Step(34, Step(17, Step(16, Step(8, Step(4, Step(2, One))))))), n, 9);
    }
  }

  lemma Bits6E(n: nat)
    requires n in {47, 53}
    ensures Evaluated(n, 9)
  {
    hide Evaluated;
    if n == 47 {
      Listed(Step(47, Step(44, Step(22, Step(11, Step(6, Step(5, Step(3, Step(2, One)))))))), n, 9);
    } else {
      Listed(Step(53, Step(29, Step(24, Step(12, Step(6, Step(5, Step(3, Step(2, One)))))))), n, 9);
    }
  }

  lemma Bits6F(n: nat)
    requires n in {55, 57}
    ensures Evaluated(n, 9)
  {
    hide Evaluated;
    if n == 55 {
      Listed(Step(55, Step(44, Step(22, Step(11, Step(6, Step(5, Step(3, Step(2, One)))))))), n, 9);
    } else {
      Listed(Step(57, Step(31, Step(26, Step(13, Step(10, Step(5, Step(3, Step(2, One)))))))), n, 9);
    }
  }

  lemma Bits6G(n: nat)
    requires n in {59, 61}
    ensures Evaluated(n, 9)
  {
    hide Evaluated;
    if n == 59 {
      Listed(Step(59, Step(34, Step(25, Step(17, Step(16, Step(8, Step(4, Step(2, One)))))))), n, 9);
    } else {
      Listed(Step(61, Step(60, Step(30, Step(15, Step(9, Step(6, Step(3, Step(2, One)))))))), n, 9);
    }
  }

  lemma Bits6H(n: nat)
    requires n in {63}
    ensures Evaluated(n, 9)
  {
    hide Evaluated;
    Listed(Step(63, Step(36, Step(27, Step(18, Step(9, Step(6, Step(3, Step(2, One)))))))), n, 9);
  }

  lemma Bits7A(n: nat)
    requires n in {65, 69, 73, 79, 97, 115}
    ensures Evaluated(n, 11)
  {
    hide Evaluated;
    if n == 65 || n == 73 || n == 97 {
      Listed(Step(97, Step(73, Step(65, Step(64, Step(32, Step(16, Step(8, Step(4, Step(2, One))))))))), n, 11);
    } else {
      Listed(Step(115, Step(79, Step(69, Step(46, Step(23, Step(13, Step(10, Step(5, Step(3, Step(2, One)))))))))), n, 11);
    }
  }

  lemma Bits7B(n: nat)
    requires n in {67, 75, 101, 125}
    ensures Evaluated(n, 11)
  {
    hide Evaluated;
    if n == 67 || n == 101 {
      Listed(Step(101, Step(67, Step(34, Step(33, Step(17, Step(16, Step(8, Step(4, Step(2, One))))))))), n, 11);
    } else {
      Listed(Step(125, Step(75, Step(50, Step(25, Step(17, Step(16, Step(8, Step(4, Step(2, One))))))))), n, 11);
    }
  }

  lemma Bits7C(n: nat)
    requires n in {81, 83, 113, 123}
    ensures Evaluated(n, 11)
  {
    hide Evaluated;
    if n == 81 || n == 113 {
      Listed(Step(113, Step(81, Step(64, Step(49, Step(32, Step(17, Step(16, Step(8, Step(4, Step(2, One)))))))))), n, 11);
    } else {
      Listed(Step(123, Step(83, Step(80, Step(43, Step(40, Step(20, Step(10, Step(5, Step(3, Step(2, One)))))))))), n, 11);
    }
  }

  lemma Bits7D(n: nat)
    requires n in {85, 99, 103, 119}
    ensures Evaluated(n, 11)
  {
    hide Evaluated;
    if n == 85 || n == 119 {
      Listed(Step(119, Step(85, Step(68, Step(51, Step(34, Step(17, Step(16, Step(8, Step(4, Step(2, One)))))))))), n, 11);
    } else {
      Listed(Step(103, Step(99, Step(66, Step(37, Step(33, Step(17, Step(16, Step(8, Step(4, Step(2, One)))))))))), n, 11);
    }
  }

  lemma Bits7E(n: nat)
    requires n in {71, 77, 107, 111}
    ensures Evaluated(n, 11)
  {
    hide Evaluated;
    if n == 107 || n == 111 {
      Listed(Step(111, Step(107, Step(74, Step(37, Step(33, Step(17, Step(16, Step(8, Step(4, Step(2, One)))))))))), n, 11);
    } else if n == 71 {
      Listed(Step(71, Step(37, Step(34, Step(33, Step(17, Step(16, Step(8, Step(4, Step(2, One))))))))), n, 11);
    } else {
      Listed(Step(77, Step(48, Step(29, Step(24, Step(12, Step(6, Step(5, Step(3, Step(2, One))))))))), n, 11);
    }
  }

  lemma Bits7F(n: nat)
    requires n in {87, 89, 91}
    ensures Evaluated(n, 11)
  {
    hide Evaluated;
    if n == 87 {
      Listed(Step(87, Step(58, Step(29, Step(24, Step(12, Step(6, Step(5, Step(3, Step(2, One))))))))), n, 11);
    } else if n == 89 {
      Listed(Step(89, Step(64, Step(32, Step(25, Step(17, Step(16, Step(8, Step(4, Step(2, One))))))))), n, 11);
    } else {
      Listed(Step(91, Step(47, Step(44, Step(22, Step(11, Step(6, Step(5, Step(3, Step(2, One))))))))), n, 11);
    }
  }

  lemma Bits7G(n: nat)
    requires n in {93, 95, 105}
    ensures Evaluated(n, 11)
  {
    hide Evaluated;
    if n == 93 {
      Listed(Step(93, Step(59, Step(34, Step(25, Step(17, Step(16, Step(8, Step(4, Step(2, One))))))))), n, 11);
    } else if n == 95 {
      Listed(Step(95, Step(76, Step(38, Step(19, Step(16, Step(8, Step(4, Step(3, Step(2, One))))))))), n, 11);
    } else {
      Listed(Step(105, Step(70, Step(35, Step(19, Step(16, Step(8, Step(4, Step(3, Step(2, One))))))))), n, 11);
    }
  }

  lemma Bits7H(n: nat)
    requires n in {109, 117, 121}
    ensures Evaluated(n, 11)
  {
    hide Evaluated;
    if n == 109 {
      Listed(Step(109, Step(104, Step(52, Step(26, Step(13, Step(10, Step(5, Step(3, Step(2, One))))))))), n, 11);
    } else if n == 117 {
      Listed(Step(117, Step(78, Step(39, Step(26, Step(13, Step(10, Step(5, Step(3, Step(2, One))))))))), n, 11);
    } else {
      Listed(Step(121, Step(61, Step(60, Step(30, Step(15, Step(9, Step(6, Step(3, Step(2, One))))))))), n, 11);
    }
  }

  lemma Bits7I(n: nat)
    requires n in {127}
    ensures Evaluated(n, 11)
  {
    hide Evaluated;
    Listed(Step(127, Step(68, Step(59, Step(34, Step(25, Step(17, Step(16, Step(8, Step(4, Step(2, One)))))))))), n, 11);
  }

  lemma Bits8A(n: nat)
    requires n in {129, 133, 137, 197}
    ensures Evaluated(n, 13)
  {
    hide Evaluated;
    Listed(Step(197, Step(137, Step(133, Step(129, Step(73, Step(65, Step(64, Step(32, Step(16, Step(8, Step(4, Step(2, One)))))))))))), n, 13);
  }

  lemma Bits8B(n: nat)
    requires n in {131, 139, 145}
    ensures Evaluated(n, 13)
  {
    hide Evaluated;
    Listed(Step(145, Step(139, Step(131, Step(128, Step(64, Step(32, Step(17, Step(16, Step(8, Step(4, Step(3, Step(2, One)))))))))))), n, 13);
  }

  lemma Bits8C(n: nat)
    requires n in {147, 179, 245}
    ensures Evaluated(n, 13)
  {
    hide Evaluated;
    Listed(Step(245, Step(179, Step(147, Step(98, Step(81, Step(49, Step(32, Step(17, Step(16, Step(8, Step(4, Step(2, One)))))))))))), n, 13);
  }

  lemma Bits8D(n: nat)
    requires n in {149, 157, 215}
    ensures Evaluated(n, 13)
  {
    hide Evaluated;
    Listed(Step(215, Step(157, Step(149, Step(132, Step(66, Step(33, Step(25, Step(17, Step(16, Step(8, Step(4, Step(2, One)))))))))))), n, 13);
  }

  lemma Bits8E(n: nat)
    requires n in {153, 187, 255}
    ensures Evaluated(n, 13)
  {
    hide Evaluated;
    Listed(Step(255, Step(187, Step(153, Step(102, Step(85, Step(51, Step(34, Step(17, Step(16, Step(8, Step(4, Step(2, One)))))))))))), n, 13);
  }

  lemma Bits8F(n: nat)
    requires n in {161, 193, 225}
    ensures Evaluated(n, 13)
  {
    hide Evaluated;
    Listed(Step(225, Step(193, Step(161, Step(128, Step(97, Step(65, Step(64, Step(32, Step(16, Step(8, Step(4, Step(2, One)))))))))))), n, 13);
  }

  lemma Bits8G(n: nat)
    requires n in {163, 173, 195, 199, 227}
    ensures Evaluated(n, 13)
  {
    hide Evaluated;
    if n == 195 || n == 199 || n == 227 {
      Listed(Step(227, Step(199, Step(195, Step(130, Step(97, Step(65, Step(64, Step(32, Step(16, Step(8, Step(4, Step(2, One)))))))))))), n, 13);
    } else {
      Listed(Step(173, Step(163, Step(160, Step(80, Step(40, Step(20, Step(13, Step(10, Step(5, Step(3, Step(2, One))))))))))), n, 13);
    }
  }

  lemma Bits8H(n: nat)
    requires n in {165, 211, 219, 231}
    ensures Evaluated(n, 13)
  {
    hide Evaluated;
    if n == 165 || n == 231 {
      Listed(Step(231, Step(165, Step(132, Step(99, Step(66, Step(33, Step(17, Step(16, Step(8, Step(4, Step(2, One))))))))))), n, 13);
    } else {
      Listed(Step(219, Step(211, Step(146, Step(73, Step(65, Step(64, Step(32, Step(16, Step(8, Step(4, Step(2, One))))))))))), n, 13);
    }
  }

  lemma Bits8I(n: nat)
    requires n in {151, 169, 183, 249}
    ensures Evaluated(n, 13)
  {
    hide Evaluated;
    if n == 151 || n == 183 {
      Listed(Step(183, Step(151, Step(122, Step(121, Step(61, Step(60, Step(30, Step(15, Step(9, Step(6, Step(3, Step(2, One)))))))))))), n, 13);
    } else {
      Listed(Step(249, Step(169, Step(166, Step(86, Step(83, Step(43, Step(40, Step(20, Step(10, Step(5, Step(3, Step(2, One)))))))))))), n, 13);
    }
  }

  lemma Bits8J(n: nat)
    requires n in {171, 175, 217, 247}
    ensures Evaluated(n, 13)
  {
    hide Evaluated;
    if n == 171 || n == 247 {
      Listed(Step(247, Step(171, Step(152, Step(95, Step(76, Step(38, Step(19, Step(16, Step(8, Step(4, Step(3, Step(2, One)))))))))))), n, 13);
    } else {
      Listed(Step(217, Step(200, Step(175, Step(100, Step(75, Step(50, Step(25, Step(17, Step(16, Step(8, Step(4, Step(2, One)))))))))))), n, 13);
    }
  }

  lemma Bits8K(n: nat)
    requires n in {181, 185, 207, 253}
    ensures Evaluated(n, 13)
  {
    hide Evaluated;
    if n == 181 || n == 185 {
      Listed(Step(185, Step(181, Step(111, Step(107, Step(74, Step(37, Step(33, Step(17, Step(16, Step(8, Step(4, Step(2, One)))))))))))), n, 13);
    } else {
      Listed(Step(253, Step(207, Step(138, Step(115, Step(69, Step(46, Step(23, Step(13, Step(10, Step(5, Step(3, Step(2, One)))))))))))), n, 13);
    }
  }

  lemma Bits8L(n: nat)
    requires n in {135, 141, 143}
    ensures Evaluated(n, 13)
  {
    hide Evaluated;
    if n == 135 {
      Listed(Step(135, Step(90, Step(45, Step(27, Step(18, Step(9, Step(6, Step(3, Step(2, One))))))))), n, 13);
    } else if n == 141 {
      Listed(Step(141, Step(94, Step(47, Step(44, Step(22, Step(11, Step(6, Step(5, Step(3, Step(2, One)))))))))), n, 13);
    } else {
      Listed(Step(143, Step(88, Step(55, Step(44, Step(22, Step(11, Step(6, Step(5, Step(3, Step(2, One)))))))))), n, 13);
    }
  }

  lemma Bits8M(n: nat)
    requires n in {155, 159, 167}
    ensures Evaluated(n, 13)
  {
    hide Evaluated;
    if n == 155 {
      Listed(Step(155, Step(124, Step(62, Step(31, Step(26, Step(13, Step(10, Step(5, Step(3, Step(2, One)))))))))), n, 13);
    } else if n == 159 {
      Listed(Step(159, Step(106, Step(53, Step(29, Step(24, Step(12, Step(6, Step(5, Step(3, Step(2, One)))))))))), n, 13);
    } else {
      Listed(Step(167, Step(134, Step(67, Step(34, Step(33, Step(17, Step(16, Step(8, Step(4, Step(2, One)))))))))), n, 13);
    }
  }

  lemma Bits8N(n: nat)
    requires n in {177, 189, 201}
    ensures Evaluated(n, 13)
  {
    hide Evaluated;
    if n == 177 {
      Listed(Step(177, Step(113, Step(64, Step(49, Step(32, Step(17, Step(16, Step(8, Step(4, Step(2, One)))))))))), n, 13);
    } else if n == 189 {
      Listed(Step(189, Step(126, Step(63, Step(36, Step(27, Step(18, Step(9, Step(6, Step(3, Step(2, One)))))))))), n, 13);
    } else {
      Listed(Step(201, Step(128, Step(73, Step(65, Step(64, Step(32, Step(16, Step(8, Step(4, Step(2, One)))))))))), n, 13);
    }
  }

  lemma Bits8O(n: nat)
    requires n in {203, 205, 209}
    ensures Evaluated(n, 13)
  {
    hide Evaluated;
    if n == 203 {
      Listed(Step(203, Step(123, Step(80, Step(43, Step(40, Step(20, Step(10, Step(5, Step(3, Step(2, One)))))))))), n, 13);
    } else if n == 205 {
      Listed(Step(205, Step(164, Step(82, Step(41, Step(25, Step(17, Step(16, Step(8, Step(4, Step(2, One)))))))))), n, 13);
    } else {
      Listed(Step(209, Step(145, Step(128, Step(64, Step(32, Step(17, Step(16, Step(8, Step(4, Step(2, One)))))))))), n, 13);
    }
  }

  lemma Bits8P(n: nat)
    requires n in {213, 221, 241}
    ensures Evaluated(n, 13)
  {
    hide Evaluated;
    if n == 213 {
      Listed(Step(213, Step(109, Step(104, Step(52, Step(26, Step(13, Step(10, Step(5, Step(3, Step(2, One)))))))))), n, 13);
    } else if n == 221 {
      Listed(Step(221, Step(170, Step(85, Step(51, Step(34, Step(17, Step(16, Step(8, Step(4, Step(2, One)))))))))), n, 13);
    } else {
      Listed(Step(241, Step(240, Step(120, Step(60, Step(30, Step(15, Step(9, Step(6, Step(3, Step(2, One)))))))))), n, 13);
    }
  }

  lemma Bits8Q(n: nat)
    requires n in {191, 223, 243}
    ensures Evaluated(n, 13)
  {
    hide Evaluated;
    if n == 243 {
      Listed(Step(243, Step(162, Step(81, Step(49, Step(32, Step(17, Step(16, Step(8, Step(4, Step(2, One)))))))))), n, 13);
    } else if n == 191 {
      Listed(Step(191, Step(150, Step(75, Step(50, Step(41, Step(25, Step(17, Step(16, Step(8, Step(4, Step(2, One))))))))))), n, 13);
    } else {
      Listed(Step(223, Step(157, Step(132, Step(66, Step(33, Step(25, Step(17, Step(16, Step(8, Step(4, Step(2, One))))))))))), n, 13);
    }
  }

  lemma Bits8R(n: nat)
    requires n in {229, 233, 235}
    ensures Evaluated(n, 13)
  {
    hide Evaluated;
    if n == 229 {
      Listed(Step(229, Step(182, Step(91, Step(47, Step(44, Step(22, Step(11, Step(6, Step(5, Step(3, Step(2, One))))))))))), n, 13);
    } else if n == 233 {
      Listed(Step(233, Step(200, Step(100, Step(50, Step(33, Step(25, Step(17, Step(16, Step(8, Step(4, Step(2, One))))))))))), n, 13);
    } else {
      Listed(Step(235, Step(132, Step(103, Step(66, Step(37, Step(33, Step(17, Step(16, Step(8, Step(4, Step(2, One))))))))))), n, 13);
    }
  }

  lemma Bits8S(n: nat)
    requires n in {237, 239, 251}
    ensures Evaluated(n, 13)
  {
    hide Evaluated;
    if n == 237 {
      Listed(Step(237, Step(158, Step(79, Step(69, Step(46, Step(23, Step(13, Step(10, Step(5, Step(3, Step(2, One))))))))))), n, 13);
    } else if n == 239 {
      Listed(Step(239, Step(206, Step(103, Step(66, Step(37, Step(33, Step(17, Step(16, Step(8, Step(4, Step(2, One))))))))))), n, 13);
    } else {
      Listed(Step(251, Step(214, Step(107, Step(74, Step(37, Step(33, Step(17, Step(16, Step(8, Step(4, Step(2, One))))))))))), n, 13);
    }
  }

  // ---- every exponent of the table ----

  lemma Odd2(n: nat)
    requires 2 <= n < 4 && n % 2 == 1
    ensures Evaluated(n, 3)
  {
    hide Evaluated;
    Bits2A(n);
  }

  lemma Odd3(n: nat)
    requires 4 <= n < 8 && n % 2 == 1
    ensures Evaluated(n, 5)
  {
    hide Evaluated;
    Bits3A(n);
  }

  lemma Odd4(n: nat)
    requires 8 <= n < 16 && n % 2 == 1
    ensures Evaluated(n, 7)
  {
    hide Evaluated;
    if n in {9, 11, 15} {
      Bits4A(n);
    } else {
      Bits4B(n);
    }
  }

  lemma Odd5(n: nat)
    requires 16 <= n < 32 && n % 2 == 1
    ensures Evaluated(n, 8)
  {
    hide Evaluated;
    if n in {17, 19, 25} {
      Bits5A(n);
    } else if n in {21, 23, 27} {
      Bits5B(n);
    } else {
      Bits5C(n);
    }
  }

  lemma Odd6(n: nat)
    requires 32 <= n < 64 && n % 2 == 1
    ensures Evaluated(n, 9)
  {
    hide Evaluated;
    if n in {33, 35, 37} {
      Bits6A(n);
    } else if n in {39, 41} {
      Bits6B(n);
    } else if n in {43, 45} {
      Bits6C(n);
    } else if n in {49, 51} {
      Bits6D(n);
    } else if n in {47, 53} {
      Bits6E(n);
    } else if n in {55, 57} {
      Bits6F(n);
    } else if n in {59, 61} {
      Bits6G(n);
    } else {
      Bits6H(n);
    }
  }

  lemma Odd7(n: nat)
    requires 64 <= n < 128 && n % 2 == 1
    ensures Evaluated(n, 11)
  {
    hide Evaluated;
    if n in {65, 69, 73, 79, 97, 115} {
      Bits7A(n);
    } else if n in {67, 75, 101, 125} {
      Bits7B(n);
    } else if n in {81, 83, 113, 123} {
      Bits7C(n);
    } else if n in {85, 99, 103, 119} {
      Bits7D(n);
    } else if n in {71, 77, 107, 111} {
      Bits7E(n);
    } else if n in {87, 89, 91} {
      Bits7F(n);
    } else if n in {93, 95, 105} {
      Bits7G(n);
    } else if n in {109, 117, 121} {
      Bits7H(n);
    } else {
      Bits7I(n);
    }
  }

  lemma Odd8(n: nat)
    requires 128 <= n < 256 && n % 2 == 1
    ensures Evaluated(n, 13)
  {
    hide Evaluated;
    if n in {129, 133, 137, 197} {
      Bits8A(n);
    } else if n in {131, 139, 145} {
      Bits8B(n);
    } else if n in {147, 179, 245} {
      Bits8C(n);
    } else if n in {149, 157, 215} {
      Bits8D(n);
    } else if n in {153, 187, 255} {
      Bits8E(n);
    } else if n in {161, 193, 225} {
      Bits8F(n);
    } else if n in {163, 173, 195, 199, 227} {
      Bits8G(n);
    } else if n in {165, 211, 219, 231} {
      Bits8H(n);
    } else if n in {151, 169, 183, 249} {
      Bits8I(n);
    } else if n in {171, 175, 217, 247} {
      Bits8J(n);
    } else if n in {181, 185, 207, 253} {
      Bits8K(n);
    } else if n in {135, 141, 143} {
      Bits8L(n);
    } else if n in {155, 159, 167} {
      Bits8M(n);
    } else if n in {177, 189, 201} {
      Bits8N(n);
    } else if n in {203, 205, 209} {
      Bits8O(n);
    } else if n in {213, 221, 241} {
      Bits8P(n);
    } else if n in {191, 223, 243} {
      Bits8Q(n);
    } else if n in {229, 233, 235} {
      Bits8R(n);
    } else {
      Bits8S(n);
    }
  }

  /** The number of binary digits. */
  function Bits(n: nat): nat {
    if n == 0 then 0 else 1 + Bits(n / 2)
  }

  /** The most exponents an evaluation through the table needs, by the number of digits. */
  function Cap(n: nat): nat {
    if n < 2 then 1 else if n < 4 then 3 else if n < 8 then 5 else if n < 16 then 7
    else if n < 32 then 8 else if n < 64 then 9 else if n < 128 then 11 else 13
  }

  lemma {:induction false} TableCap(n: nat)
    requires 1 <= n < POWI_TABLE_SIZE
    ensures |Chain(n)| <= Cap(n)
    decreases n
  {
    hide Chain, Evaluated;
    if n == 1 {
      ChainOne();
    } else if n % 2 == 0 {
      TableCap(n / 2);
      ChainDouble(n / 2);
      OneMore(Chain(n / 2), n);
    } else {
      if n < 4 { Odd2(n); }
      else if n < 8 { Odd3(n); }
      else if n < 16 { Odd4(n); }
      else if n < 32 { Odd5(n); }
      else if n < 64 { Odd6(n); }
      else if n < 128 { Odd7(n); }
      else { Odd8(n); }
      ByEvaluation(n, Cap(n));
    }
  }

  lemma OneMore(s: set<nat>, k: nat)
    ensures |{k} + s| <= |s| + 1
  {
    if k in s { assert {k} + s == s; }
  }

  lemma CapBits(n: nat)
    requires 1 <= n < POWI_TABLE_SIZE
    ensures Cap(n) <= 2 * Bits(n) - 1 && (n >= 32 ==> Cap(n) <= 2 * Bits(n) - 3)
  {
    hide Bits;
    BitsAt(n, 1); BitsAt(n, 2); BitsAt(n, 4); BitsAt(n, 8); BitsAt(n, 16); BitsAt(n, 32); BitsAt(n, 64); BitsAt(n, 128);
    assert Bits(1) == 1 && Bits(2) == 2 && Bits(4) == 3 && Bits(8) == 4 && Bits(16) == 5 && Bits(32) == 6 && Bits(64) == 7 && Bits(128) == 8 by {
      BitsOfPowers();
    }
  }

  lemma BitsOfPowers()
    ensures Bits(1) == 1 && Bits(2) == 2 && Bits(4) == 3 && Bits(8) == 4 && Bits(16) == 5 && Bits(32) == 6 && Bits(64) == 7 && Bits(128) == 8
  {}

  lemma {:induction false} BitsAt(n: nat, m: nat)
    ensures m <= n ==> Bits(m) <= Bits(n)
  {
    if 0 < m <= n { BitsAt(n / 2, m / 2); }
  }

  // ---- the window loop ----

  /** What is left when the window loop ends. */
  function Top(val: nat): (t: nat)
    requires val >= 1
    ensures 1 <= t < POWI_TABLE_SIZE && (val >= 32 ==> t >= 32)
    decreases val
  {
    if val < POWI_TABLE_SIZE then val
    else if val % 2 == 1 then Top(val / WINDOW)
    else Top(val / 2)
  }

  /** The odd digits need few exponents that are not needed anyway. */
  const SMALL: set<nat> := {3, 4, 5, 7}

  lemma DigitChain(d: nat)
    requires d in {1, 3, 5, 7}
    ensures Chain(d) <= {1, 2} + SMALL
  {
    hide Table, Chain;
    ChainOne();
    if d > 1 {
      var l := if d == 3 then Step(3, Step(2, One)) else if d == 5 then Step(5, Step(3, Step(2, One))) else Step(7, Step(4, Step(3, Step(2, One))));
      assert Splits(Step(3, Step(2, One))) && Splits(Step(5, Step(3, Step(2, One)))) && Splits(Step(7, Step(4, Step(3, Step(2, One))))) by {
        DigitsSplit();
      }
      ChainInside(l, d);
    }
  }

  lemma DigitsSplit()
    ensures Splits(Step(3, Step(2, One))) && Splits(Step(5, Step(3, Step(2, One)))) && Splits(Step(7, Step(4, Step(3, Step(2, One)))))
  {}

  lemma {:induction false} TwoNeeded(n: nat)
    requires 2 <= n < POWI_TABLE_SIZE
    ensures {1, 2} <= Chain(n)
    decreases n
  {
    hide Table, Chain;
    OwnChain(n);
    if n > 2 {
      if Table(n) >= 2 { TwoNeeded(Table(n)); } else { TwoNeeded(n - Table(n)); }
    } else {
      ChainOne();
    }
  }

  /** Each window costs two products less than its digits allow, and each halving one. */
  lemma {:induction false} Slack(val: nat)
    requires val >= 32
    ensures LoopChain(val) == Chain(Top(val)) || LoopCost(val) + 2 * Bits(Top(val)) + 2 <= 2 * Bits(val)
    ensures LoopCost(val) + 2 * Bits(Top(val)) <= 2 * Bits(val)
    ensures LoopChain(val) <= Chain(Top(val)) + SMALL
    decreases val
  {
    hide Chain, Bits;
    if val >= POWI_TABLE_SIZE {
      if val % 2 == 1 {
        OddDigit(val);
        Slack(val / WINDOW);
        BitsShift(val);
        DigitChain(val % WINDOW);
        TwoNeeded(Top(val));
      } else {
        Slack(val / 2);
        BitsHalf(val);
      }
    }
  }

  lemma BitsHalf(n: nat)
    requires n >= 1
    ensures Bits(n) == 1 + Bits(n / 2)
  {}

  lemma BitsShift(n: nat)
    requires n >= WINDOW
    ensures Bits(n) == 3 + Bits(n / WINDOW)
  {
    BitsHalf(n);
    BitsHalf(n / 2);
    BitsHalf(n / 2 / 2);
    assert n / 2 / 2 / 2 == n / WINDOW;
  }

  /** The promise of the comment before POWI_MAX_MULTS, for every exponent. */
  lemma CostBound(n: int)
    requires n != 0
    ensures Cost(n) <= 2 * Bits(Abs(n)) - 2
  {
    hide Chain, Bits;
    var val := Abs(n);
    if val < 32 {
      TableCap(val);
      CapBits(val);
    } else {
      var t := Top(val);
      Slack(val);
      TableCap(t);
      CapBits(t);
      SubsetSize(LoopChain(val), Chain(t) + SMALL);
      UnionSize(Chain(t), SMALL);
    }
  }

  lemma UnionSize(a: set<nat>, b: set<nat>)
    ensures |a + b| <= |a| + |b|
  {
    SubsetSize(a * b, a);
  }
}
