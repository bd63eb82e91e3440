/** Realigning the attention block size of hybrid models to TurboQuant's packed pages. */
module HybridBlockSize {
  import opened Arith
  import opened BlockTables
  import opened Wrappers

  // ---- Common multiples ----

  predicate Divides(d: nat, n: nat) {
    d > 0 && Rem(n, d) == 0
  }

  lemma {:induction false} DividesMinus(d: nat, m: nat, n: nat)
    requires Divides(d, m) && Divides(d, n) && n <= m
    ensures Divides(d, m - n)
  {
    if n >= d {
      DividesMinus(d, m - d, n - d);
    }
  }

  lemma {:induction false} DividesRem(d: nat, m: nat, l: nat)
    requires Divides(d, m) && Divides(d, l) && l > 0
    ensures Divides(d, Rem(m, l))
  {
    if m >= l {
      DividesMinus(d, m, l);
      DividesRem(d, m - l, l);
    }
  }

  lemma {:induction false} DividesTransitive(d: nat, l: nat, m: nat)
    requires Divides(d, l) && Divides(l, m)
    ensures Divides(d, m)
    decreases m
  {
    if m >= l {
      DividesTransitive(d, l, m - l);
      DividesPlus(d, m - l, l);
    }
  }

  lemma {:induction false} DividesPlus(d: nat, m: nat, n: nat)
    requires Divides(d, m) && Divides(d, n)
    ensures Divides(d, m + n)
  {
    if n >= d {
      DividesPlus(d, m, n - d);
    }
  }

  lemma DividesMultiple(d: nat, k: nat)
    requires d > 0
    ensures Divides(d, Flat(k, d, 0))
  {
    QuotFlat(k, d, 0);
  }

  /** The first multiple of `a`, from the `k`-th on, that `b` divides; the `b`-th at the latest. */
  function FirstCommon(a: nat, b: nat, k: nat): nat
    requires a > 0 && 0 < k <= b
    decreases b - k
  {
    if k == b || Divides(b, Flat(k, a, 0)) then Flat(k, a, 0) else FirstCommon(a, b, k + 1)
  }

  function Lcm(a: nat, b: nat): nat
    requires a > 0 && b > 0
  {
    FirstCommon(a, b, 1)
  }

  lemma {:induction false} FirstCommonIs(a: nat, b: nat, k: nat, m: nat)
    requires a > 0 && 0 < k <= b
    ensures FirstCommon(a, b, k) > 0 && Divides(a, FirstCommon(a, b, k)) && Divides(b, FirstCommon(a, b, k))
    ensures Divides(a, m) && Divides(b, m) && Quot(m, a) >= k ==> m >= FirstCommon(a, b, k)
    decreases b - k
  {
    FlatMonotone(1, k, a);
    DividesMultiple(a, k);
    FlatIs(b, a, 0);
    FlatIs(a, b, 0);
    DividesMultiple(b, a);
    FlatQuot(m, a);
    if k == b || Divides(b, Flat(k, a, 0)) {
      if Divides(a, m) && Quot(m, a) >= k {
        FlatMonotone(k, Quot(m, a), a);
      }
    } else {
      FirstCommonIs(a, b, k + 1, m);
    }
  }

  /** A positive common multiple that divides every common multiple. */
  lemma LcmIs(a: nat, b: nat, m: nat)
    requires a > 0 && b > 0
    ensures Lcm(a, b) > 0 && Divides(a, Lcm(a, b)) && Divides(b, Lcm(a, b))
    ensures Divides(a, m) && Divides(b, m) ==> Divides(Lcm(a, b), m)
  {
    FirstCommonIs(a, b, 1, 0);
    if Divides(a, m) && Divides(b, m) {
      var rest := Rem(m, Lcm(a, b));
      DividesRem(a, m, Lcm(a, b));
      DividesRem(b, m, Lcm(a, b));
      FirstCommonIs(a, b, 1, rest);
      SmallMultiple(a, rest);
    }
  }

  lemma SmallMultiple(a: nat, m: nat)
    requires Divides(a, m) && Quot(m, a) == 0
    ensures m == 0
  {
  }

  // ---- The aligned size ----

  /** `user_block_size or 1`. */
  function OrOne(size: Option<nat>): (n: nat)
    ensures n > 0
  {
    if size.None? || size.value == 0 then 1 else size.value
  }

  function Alignment(base: nat, user: Option<nat>, hash: Option<nat>): (n: nat)
    requires base > 0
    ensures n > 0
  {
    LcmIs(base, OrOne(user), 0);
    LcmIs(Lcm(base, OrOne(user)), OrOne(hash), 0);
    Lcm(Lcm(base, OrOne(user)), OrOne(hash))
  }

  function AlignedSize(align: nat, page: nat, tokenPage: nat): nat
    requires align * tokenPage > 0
  {
    align * CeilDiv(page, align * tokenPage)
  }

  lemma CeilIs(n: nat, d: nat, k: nat)
    requires d > 0
    ensures CeilDiv(n, d) * d >= n && (k * d >= n ==> k >= CeilDiv(n, d))
  {
    var c := CeilDiv(n, d);
    assert n + d - 1 == c * d + (n + d - 1) % d;
    if k * d >= n && k < c {
      ProductMonotone(k + 1, c, d);
      Distribute(k, 1, d);
    }
  }

  /** Every multiple of the backend's alignment and of the given user and hash sizes; a size of zero is not given. */
  ghost predicate Allowed(size: nat, base: nat, user: Option<nat>, hash: Option<nat>) {
    && Divides(base, size)
    && (user.Some? && user.value > 0 ==> Divides(user.value, size))
    && (hash.Some? && hash.value > 0 ==> Divides(hash.value, size))
  }

  lemma {:induction false} DividesOne(n: nat)
    ensures Divides(1, n)
  {
    if n > 0 {
      DividesOne(n - 1);
    }
  }

  /** A size that is not given allows everything. */
  lemma OrOneIs(size: Option<nat>, m: nat)
    ensures Divides(OrOne(size), m) <==> (size.Some? && size.value > 0 ==> Divides(size.value, m))
  {
    DividesOne(m);
  }

  /** Divisibility in the language's own arithmetic. */
  lemma DividesIs(d: nat, n: nat)
    requires d > 0
    ensures Divides(d, n) <==> n % d == 0
  {
    QuotIs(n, d);
  }

  lemma AlignmentIs(base: nat, user: Option<nat>, hash: Option<nat>, m: nat)
    requires base > 0
    ensures Divides(Alignment(base, user, hash), m) <==> Allowed(m, base, user, hash)
  {
    var inner := Lcm(base, OrOne(user));
    OrOneIs(user, m);
    OrOneIs(hash, m);
    LcmIs(base, OrOne(user), m);
    LcmIs(inner, OrOne(hash), m);
    if Divides(Alignment(base, user, hash), m) {
      DividesTransitive(inner, Alignment(base, user, hash), m);
      DividesTransitive(OrOne(hash), Alignment(base, user, hash), m);
      DividesTransitive(base, inner, m);
      DividesTransitive(OrOne(user), inner, m);
    }
  }

  lemma Products(align: nat, c: nat, tokenPage: nat)
    ensures (align * c) * tokenPage == c * (align * tokenPage)
  {
  }

  /** The least allowed size whose packed page covers the state page. */
  lemma AlignedIsLeast(base: nat, user: Option<nat>, hash: Option<nat>, page: nat, tokenPage: nat, m: nat)
    requires base > 0 && tokenPage > 0 && Alignment(base, user, hash) * tokenPage > 0
    ensures var n := AlignedSize(Alignment(base, user, hash), page, tokenPage);
            && Allowed(n, base, user, hash) && n * tokenPage >= page
            && (Allowed(m, base, user, hash) && m * tokenPage >= page ==> m >= n)
  {
    var align := Alignment(base, user, hash);
    var d := align * tokenPage;
    var c, k := CeilDiv(page, d), Quot(m, align);
    AlignmentIs(base, user, hash, align * c);
    FlatIs(c, align, 0);
    DividesMultiple(align, c);
    CeilIs(page, d, k);
    Products(align, c, tokenPage);
    if Allowed(m, base, user, hash) && m * tokenPage >= page {
      AlignmentIs(base, user, hash, m);
      FlatQuot(m, align);
      FlatIs(k, align, 0);
      Products(align, k, tokenPage);
      ProductMonotone(c, k, align);
    }
  }

  /** A size that keeps the backend's alignment of eight is one the block tables accept. */
  lemma AllowedIsAccepted(n: nat, base: nat, user: Option<nat>, hash: Option<nat>)
    requires Allowed(n, base, user, hash) && Divides(8, base)
    ensures PickKernelBlockSize(n).Ok?
  {
    DividesTransitive(8, base, n);
    DividesIs(8, n);
  }

  /** An allowed size whose packed page covers the state page. */
  ghost predicate Suits(size: nat, base: nat, user: Option<nat>, hash: Option<nat>, page: nat, tokenPage: nat) {
    Allowed(size, base, user, hash) && size * tokenPage >= page
  }

  /** `after` is `before`, or the least suitable number if `before` is below all of those. */
  ghost predicate Raised(before: nat, after: nat, suits: nat -> bool) {
    && after >= before
    && (after == before <==> exists m: nat :: m <= before && suits(m))
    && (after > before ==> suits(after) && forall m: nat | suits(m) :: m >= after)
  }

  lemma RaisedIs(before: nat, least: nat, suits: nat -> bool)
    requires suits(least) && forall m: nat | suits(m) :: m >= least
    ensures Raised(before, if before < least then least else before, suits)
  {
  }

  /** The sizes that suit, as a function. */
  ghost function Suiting(base: nat, user: Option<nat>, hash: Option<nat>, page: nat, tokenPage: nat): nat -> bool {
    (m: nat) => Suits(m, base, user, hash, page, tokenPage)
  }

  lemma LeastSuits(base: nat, user: Option<nat>, hash: Option<nat>, page: nat, tokenPage: nat, attn: nat)
    requires base > 0 && tokenPage > 0 && Alignment(base, user, hash) * tokenPage > 0
    requires attn == AlignedSize(Alignment(base, user, hash), page, tokenPage)
    ensures Suits(attn, base, user, hash, page, tokenPage)
    ensures forall m: nat | Suiting(base, user, hash, page, tokenPage)(m) :: m >= attn
  {
    AlignedIsLeast(base, user, hash, page, tokenPage, 0);
    forall m: nat | Suiting(base, user, hash, page, tokenPage)(m)
      ensures m >= attn
    {
      AlignedIsLeast(base, user, hash, page, tokenPage, m);
    }
  }

  /**
   From a block size to the realigned one: it stays unless it is below every size that
   suits, and else becomes the least of those; its packed page covers the state page.
   */
  ghost predicate Realigned(before: nat, after: nat, base: nat, user: Option<nat>, hash: Option<nat>, page: nat,
                            tokenPage: nat)
  {
    after * tokenPage >= page && Raised(before, after, Suiting(base, user, hash, page, tokenPage))
  }

  lemma RaisedIsRealigned(before: nat, attn: nat, base: nat, user: Option<nat>, hash: Option<nat>, page: nat,
                          tokenPage: nat)
    requires base > 0 && tokenPage > 0 && Alignment(base, user, hash) * tokenPage > 0
    requires attn == AlignedSize(Alignment(base, user, hash), page, tokenPage)
    ensures Realigned(before, if before < attn then attn else before, base, user, hash, page, tokenPage)
    ensures Allowed(attn, base, user, hash)
  {
    LeastSuits(base, user, hash, page, tokenPage, attn);
    RaisedIs(before, attn, Suiting(base, user, hash, page, tokenPage));
    if before >= attn {
      ProductMonotone(attn, before, tokenPage);
    }
  }

  // ---- The cache configuration ----

  class CacheConfig {
    var blockSize: nat
    var mambaBlockSize: nat
    var mambaCacheMode: string
    var mambaPageSizePadded: Option<nat>

    constructor (blockSize: nat, mambaBlockSize: nat, mambaCacheMode: string, mambaPageSizePadded: Option<nat>)
      ensures this.blockSize == blockSize && this.mambaBlockSize == mambaBlockSize
      ensures this.mambaCacheMode == mambaCacheMode && this.mambaPageSizePadded == mambaPageSizePadded
    {
      this.blockSize, this.mambaBlockSize := blockSize, mambaBlockSize;
      this.mambaCacheMode, this.mambaPageSizePadded := mambaCacheMode, mambaPageSizePadded;
    }

    /**
     For any starting block size: nothing happens without TurboQuant, a hybrid model and
     a state; otherwise the packed page covers the state page afterwards, a block size
     below every one that aligns and covers becomes the least of those and any other
     stays, the state's block size follows in align mode, and the padded page is absent
     exactly when the packed page fits the state as it is.
     */
    method Realign(enabled: bool, page: nat, tokenPage: nat, base: nat, user: Option<nat>, hash: Option<nat>)
      requires base > 0 && tokenPage > 0
      modifies this
      ensures mambaCacheMode == old(mambaCacheMode)
      ensures !enabled || page == 0 ==>
                blockSize == old(blockSize) && mambaBlockSize == old(mambaBlockSize) &&
                mambaPageSizePadded == old(mambaPageSizePadded)
      ensures enabled && page > 0 ==>
                && Realigned(old(blockSize), blockSize, base, user, hash, page, tokenPage)
                && mambaBlockSize == (if mambaCacheMode == "align" then blockSize else old(mambaBlockSize))
                && mambaPageSizePadded == if blockSize * tokenPage == page then None else Some(blockSize * tokenPage)
      ensures enabled && page > 0 && blockSize > old(blockSize) && Divides(8, base) ==>
              PickKernelBlockSize(blockSize).Ok?
    {
      if !enabled || page == 0 {
        return;
      }
      var align := Alignment(base, user, hash);
      ProductMonotone(1, align, tokenPage);
      var attn := AlignedSize(align, page, tokenPage);
      RaisedIsRealigned(blockSize, attn, base, user, hash, page, tokenPage);
      if blockSize < attn {
        blockSize := attn;
        if Divides(8, base) {
          AllowedIsAccepted(attn, base, user, hash);
        }
      }
      if mambaCacheMode == "align" {
        mambaBlockSize := blockSize;
      }
      var packed := blockSize * tokenPage;
      // The source's own assertion.
      assert packed >= page;
      if packed == page {
        mambaPageSizePadded := None;
        return;
      }
      mambaPageSizePadded := Some(packed);
    }
  }
}
