/** Attribution of a call's reported token total to the four message roles. */
module RoleSplit {
  import opened Prelude

  datatype Role = System | User | Assistant | Tool

  function Position(r: Role): nat {
    match r case System => 0 case User => 1 case Assistant => 2 case Tool => 3
  }

  /** A message as far as attribution sees it: a role, absent or unknown as None, and its length in characters. */
  datatype Message = Message(role: Option<Role>, chars: nat)

  function Attributed(m: Message): Role {
    if m.role.Some? then m.role.value else User
  }

  function Chars(messages: seq<Message>, r: Role): nat {
    if messages == [] then 0 else
      var last := messages[|messages| - 1];
      Chars(messages[..|messages| - 1], r) + if Attributed(last) == r then last.chars else 0
  }

  function AllChars(messages: seq<Message>): nat {
    Chars(messages, System) + Chars(messages, User) + Chars(messages, Assistant) + Chars(messages, Tool)
  }

  /** Python's round of p / q: to the nearest integer, a half to the even neighbour. */
  function RoundHalfEven(p: int, q: int): int
    requires q > 0
  {
    var down, rest := p / q, p % q;
    if 2 * rest < q || (2 * rest == q && down % 2 == 0) then down else down + 1
  }

  function At(out: map<Role, int>, r: Role): int { if r in out then out[r] else 0 }

  function Parts(out: map<Role, int>): int { At(out, System) + At(out, User) + At(out, Assistant) + At(out, Tool) }

  /** The shares before the drift is absorbed. */
  function Rounded(messages: seq<Message>, total: int): map<Role, int>
    requires AllChars(messages) > 0
  {
    map r: Role | Chars(messages, r) > 0 :: RoundHalfEven(total * Chars(messages, r), AllChars(messages))
  }

  function RoundAll(chars: map<Role, nat>, tokens: int, total: int): map<Role, int>
    requires total > 0 && forall r: Role :: r in chars
  {
    map r: Role | chars[r] > 0 :: RoundHalfEven(tokens * chars[r], total)
  }

  function Larger(out: map<Role, int>, r: Role, q: Role): Role {
    if r !in out || (q in out && out[q] > out[r]) then q else r
  }

  /** The role max picks: the first, in display order, of those with the largest part. */
  function Largest(out: map<Role, int>): Role {
    Larger(out, Larger(out, Larger(out, System, User), Assistant), Tool)
  }

  /** The largest share has taken the drift, if there is one; nothing else has changed. */
  function Settled(shares: map<Role, int>, total: int): map<Role, int> {
    var drift, big := total - Parts(shares), Largest(shares);
    if drift == 0 then shares else shares[big := At(shares, big) + drift]
  }

  /** The tokens given to each role that has characters. */
  function Attribution(messages: seq<Message>, total: int): map<Role, int>
    requires AllChars(messages) > 0
  {
    Settled(Rounded(messages, total), total)
  }

  // ------------------------------------------------------------------- method

  ghost predicate Counted(chars: map<Role, nat>, messages: seq<Message>) {
    forall r :: r in chars && chars[r] == Chars(messages, r)
  }

  lemma CountOne(chars: map<Role, nat>, messages: seq<Message>, i: nat)
    requires i < |messages| && Counted(chars, messages[..i])
    ensures var r := Attributed(messages[i]); r in chars && Counted(chars[r := chars[r] + messages[i].chars], messages[..i + 1])
  {
    assert messages[..i + 1][..i] == messages[..i];
  }

  method Count(messages: seq<Message>) returns (chars: map<Role, nat>)
    ensures Counted(chars, messages)
  {
    chars := map[System := 0, User := 0, Assistant := 0, Tool := 0];
    forall r ensures r in chars && chars[r] == 0 { match r case System => case User => case Assistant => case Tool => }
    var i := 0;
    while i < |messages|
      invariant 0 <= i <= |messages|
      invariant Counted(chars, messages[..i])
    {
      CountOne(chars, messages, i);
      var role := Attributed(messages[i]);
      chars := chars[role := chars[role] + messages[i].chars];
      i := i + 1;
    }
    assert messages[..i] == messages;
  }

  lemma SomeRole(messages: seq<Message>, total: int)
    requires AllChars(messages) > 0
    ensures exists r :: r in Rounded(messages, total)
  {
    var shares := Rounded(messages, total);
    if Chars(messages, System) > 0 { assert System in shares; }
    else if Chars(messages, User) > 0 { assert User in shares; }
    else if Chars(messages, Assistant) > 0 { assert Assistant in shares; }
    else { assert Tool in shares; }
  }

  lemma LargestIsFirst(out: map<Role, int>)
    requires exists r :: r in out
    ensures Largest(out) in out
    ensures forall q :: q in out ==> out[q] <= out[Largest(out)] && (Position(q) < Position(Largest(out)) ==> out[q] < out[Largest(out)])
  {
    var r :| r in out;
    assert System in out || User in out || Assistant in out || Tool in out by { match r case System => case User => case Assistant => case Tool => }
    forall q | q in out
      ensures out[q] <= out[Largest(out)] && (Position(q) < Position(Largest(out)) ==> out[q] < out[Largest(out)])
    {
      match q case System => case User => case Assistant => case Tool =>
    }
  }

  lemma CountsGiveShares(chars: map<Role, nat>, messages: seq<Message>, tokens: int)
    requires AllChars(messages) > 0 && Counted(chars, messages)
    ensures RoundAll(chars, tokens, AllChars(messages)) == Rounded(messages, tokens)
    ensures exists r :: r in Rounded(messages, tokens)
  {
    SomeRole(messages, tokens);
  }

  lemma CountsAddUp(chars: map<Role, nat>, messages: seq<Message>)
    requires Counted(chars, messages)
    ensures chars[System] + chars[User] + chars[Assistant] + chars[Tool] == AllChars(messages)
  {
  }

  method Settle(shares: map<Role, int>, total: int) returns (out: map<Role, int>)
    requires exists r :: r in shares
    ensures out == Settled(shares, total)
  {
    LargestIsFirst(shares);
    out := shares;
    var drift := total - Parts(shares);
    if drift != 0 {
      var r := Largest(shares);
      out := out[r := out[r] + drift];
    }
  }

  method Split(messages: seq<Message>, totalTokens: Option<int>) returns (out: Option<map<Role, int>>)
    ensures out.None? <==> messages == [] || totalTokens.None? || totalTokens == Some(0) || AllChars(messages) == 0
    ensures out.Some? ==> out.value == Attribution(messages, totalTokens.value)
  {
    if messages == [] || totalTokens.None? || totalTokens.value == 0 { return None; }
    var chars := Count(messages);
    CountsAddUp(chars, messages);
    var total := chars[System] + chars[User] + chars[Assistant] + chars[Tool];
    if total == 0 { return None; }
    CountsGiveShares(chars, messages, totalTokens.value);
    var split := Settle(RoundAll(chars, totalTokens.value, total), totalTokens.value);
    out := Some(split);
  }

  function AllLengths(messages: seq<Message>): nat {
    if messages == [] then 0 else AllLengths(messages[..|messages| - 1]) + messages[|messages| - 1].chars
  }

  /** A message counts for its own role, and for the user if it has none that is known. */
  lemma CharsNext(messages: seq<Message>, m: Message, r: Role)
    ensures Chars(messages + [m], r) == Chars(messages, r) + if m.role == Some(r) || (m.role.None? && r == User) then m.chars else 0
  {
    assert (messages + [m])[..|messages|] == messages;
  }

  /** Every character counts for exactly one role. */
  lemma {:induction false} CharsAddUp(messages: seq<Message>)
    ensures AllChars(messages) == AllLengths(messages)
  {
    if messages != [] {
      var n := |messages| - 1;
      CharsAddUp(messages[..n]);
      assert messages == messages[..n] + [messages[n]];
      forall r ensures Chars(messages, r) == Chars(messages[..n], r) +
                         if messages[n].role == Some(r) || (messages[n].role.None? && r == User) then messages[n].chars else 0 {
        CharsNext(messages[..n], messages[n], r);
      }
    }
  }

  // --------------------------------------------------------------- properties

  /** Every part sums back to the reported total, whatever the rounding did, and only roles with text get a part. */
  lemma PartsSumToTotal(messages: seq<Message>, total: int)
    requires AllChars(messages) > 0
    ensures Parts(Attribution(messages, total)) == total
    ensures forall r :: r in Attribution(messages, total) <==> Chars(messages, r) > 0
  {
    SomeRole(messages, total);
    SettledSums(Rounded(messages, total), total);
  }

  lemma SettledSums(shares: map<Role, int>, total: int)
    requires exists r :: r in shares
    ensures Parts(Settled(shares, total)) == total
    ensures forall r :: r in Settled(shares, total) <==> r in shares
  {
    LargestIsFirst(shares);
  }

  /** How far o is from t * c / n, scaled: never past a half, and at a half only when o is even. */
  ghost predicate Nearest(o: int, p: int, n: int) {
    && -n <= 2 * (n * o - p) <= n
    && (2 * (n * o - p) == n || 2 * (n * o - p) == -n ==> o % 2 == 0)
  }

  lemma RoundIsNearest(p: int, q: int)
    requires q > 0
    ensures Nearest(RoundHalfEven(p, q), p, q)
  {
    var down, rest := p / q, p % q;
    assert p == q * down + rest;
    assert q * (down + 1) == q * down + q;
  }

  lemma QuotientAtMost(n: int, s: int, t: int, k: int)
    requires n > 0 && n * s - t * n <= k * n
    ensures s - t <= k
  {
    assert n * (s - t - k) <= 0;
  }

  lemma NothingIsNearest(t: int, n: int)
    requires n > 0
    ensures Nearest(0, t * 0, n)
  {
  }

  lemma RoundedIsNearest(messages: seq<Message>, total: int, r: Role)
    requires AllChars(messages) > 0
    ensures Nearest(At(Rounded(messages, total), r), total * Chars(messages, r), AllChars(messages))
  {
    var c, n := Chars(messages, r), AllChars(messages);
    if c == 0 {
      NothingIsNearest(total, n);
    } else {
      RoundIsNearest(total * c, n);
      assert At(Rounded(messages, total), r) == RoundHalfEven(total * c, n);
    }
  }

  lemma Distribute(t: int, a: int, b: int, c: int, d: int)
    ensures t * a + t * b + t * c + t * d == t * (a + b + c + d)
  {
  }

  lemma TwicePart(n: int, o: int, p: int)
    requires n > 0 && p >= 0 && o <= 1 && Nearest(o, p, n)
    ensures 2 * p >= n * o && (o == 1 ==> 2 * p > n * o)
  {
    if o < 0 { assert n * o <= 0; }
  }

  lemma Halves(n: int, t: int, s: int)
    requires n > 0 && 2 * (t * n) > n * s
    ensures s < 2 * t
  {
    assert n * (s - 2 * t) < 0;
  }

  /**
   Four nearest integers to shares of a positive t overshoot it by at most 2, and by
   at most 1 when none of them is above 1: rounding a half to even is what keeps
   four equal halves from all rounding up.
   */
  lemma Overshoot(n: int, t: int, a: int, b: int, c: int, d: int, pa: int, pb: int, pc: int, pd: int)
    requires n > 0 && t > 0 && pa + pb + pc + pd == t * n
    requires pa >= 0 && pb >= 0 && pc >= 0 && pd >= 0
    requires Nearest(a, pa, n) && Nearest(b, pb, n) && Nearest(c, pc, n) && Nearest(d, pd, n)
    ensures a + b + c + d - t <= 2
    ensures a <= 1 && b <= 1 && c <= 1 && d <= 1 ==> a + b + c + d - t <= 1
  {
    var s := a + b + c + d;
    Distribute(n, a, b, c, d);
    QuotientAtMost(n, s, t, 2);
    if a <= 1 && b <= 1 && c <= 1 && d <= 1 && s - t == 2 {
      TwicePart(n, a, pa);
      TwicePart(n, b, pb);
      TwicePart(n, c, pc);
      TwicePart(n, d, pd);
      Halves(n, t, s);
      assert false;
    }
  }

  lemma NotNegative(n: int, o: int, p: int)
    requires n > 0 && p >= 0 && Nearest(o, p, n)
    ensures o >= 0
  {
  }

  lemma RoundingOvershoots(messages: seq<Message>, total: int)
    requires AllChars(messages) > 0 && total > 0
    ensures forall r :: At(Rounded(messages, total), r) >= 0
    ensures Parts(Rounded(messages, total)) - total <= 2
    ensures (forall r :: At(Rounded(messages, total), r) <= 1) ==> Parts(Rounded(messages, total)) - total <= 1
  {
    var n, shares := AllChars(messages), Rounded(messages, total);
    forall r
      ensures total * Chars(messages, r) >= 0 && Nearest(At(shares, r), total * Chars(messages, r), n) && At(shares, r) >= 0
    {
      RoundedIsNearest(messages, total, r);
      NotNegative(n, At(shares, r), total * Chars(messages, r));
    }
    Distribute(total, Chars(messages, System), Chars(messages, User), Chars(messages, Assistant), Chars(messages, Tool));
    Overshoot(n, total, At(shares, System), At(shares, User), At(shares, Assistant), At(shares, Tool),
              total * Chars(messages, System), total * Chars(messages, User),
              total * Chars(messages, Assistant), total * Chars(messages, Tool));
  }

  lemma LargestCanAbsorb(shares: map<Role, int>, total: int, most: nat)
    requires total > 0 && forall r :: At(shares, r) <= most
    requires Parts(shares) - total <= 2
    requires (forall r :: At(shares, r) <= 1) ==> Parts(shares) - total <= 1
    ensures most + (total - Parts(shares)) >= 0
  {
    if most == 0 { assert Parts(shares) <= 0; }
  }

  lemma SettledNotNegative(shares: map<Role, int>, total: int)
    requires total > 0 && exists r :: r in shares
    requires forall r :: At(shares, r) >= 0
    requires Parts(shares) - total <= 2
    requires (forall r :: At(shares, r) <= 1) ==> Parts(shares) - total <= 1
    ensures forall r :: At(Settled(shares, total), r) >= 0
  {
    LargestIsFirst(shares);
    var most := At(shares, Largest(shares));
    forall r ensures At(shares, r) <= most { if r in shares { } else { assert most >= 0; } }
    LargestCanAbsorb(shares, total, most);
    forall r ensures At(Settled(shares, total), r) >= 0 { assert At(shares, r) >= 0; }
  }

  /** For a positive total no role is ever given a negative part, however the drift falls. */
  lemma PartsNotNegative(messages: seq<Message>, total: int)
    requires AllChars(messages) > 0 && total > 0
    ensures forall r :: At(Attribution(messages, total), r) >= 0
  {
    SomeRole(messages, total);
    RoundingOvershoots(messages, total);
    SettledNotNegative(Rounded(messages, total), total);
  }

  /** Within one and a half of the exact share p / n. */
  ghost predicate Near(o: int, p: int, n: int) { -3 * n <= 2 * (n * o - p) <= 3 * n }

  lemma AbsorberIsNear(n: int, t: int, a: int, b: int, c: int, d: int, pa: int, pb: int, pc: int, pd: int)
    requires n > 0 && pa + pb + pc + pd == t * n && a + b + c + d == t
    requires Nearest(b, pb, n) && Nearest(c, pc, n) && Nearest(d, pd, n)
    ensures Near(a, pa, n)
  {
    Distribute(n, a, b, c, d);
    assert n * t == t * n;
  }

  ghost predicate NearestAt(messages: seq<Message>, total: int, out: map<Role, int>, r: Role) {
    Nearest(At(out, r), total * Chars(messages, r), AllChars(messages))
  }

  ghost predicate AllNearestBut(messages: seq<Message>, total: int, out: map<Role, int>, big: Role) {
    forall r :: r != big ==> NearestAt(messages, total, out, r)
  }

  lemma AllButOneNearest(messages: seq<Message>, total: int, out: map<Role, int>, big: Role)
    requires AllChars(messages) > 0 && Parts(out) == total && AllNearestBut(messages, total, out, big)
    ensures Near(At(out, big), total * Chars(messages, big), AllChars(messages))
  {
    assert big != System ==> NearestAt(messages, total, out, System);
    assert big != User ==> NearestAt(messages, total, out, User);
    assert big != Assistant ==> NearestAt(messages, total, out, Assistant);
    assert big != Tool ==> NearestAt(messages, total, out, Tool);
    var n := AllChars(messages);
    var a, b, c, d := At(out, System), At(out, User), At(out, Assistant), At(out, Tool);
    var pa, pb, pc, pd := total * Chars(messages, System), total * Chars(messages, User),
                          total * Chars(messages, Assistant), total * Chars(messages, Tool);
    Distribute(total, Chars(messages, System), Chars(messages, User), Chars(messages, Assistant), Chars(messages, Tool));
    match big
    case System => AbsorberIsNear(n, total, a, b, c, d, pa, pb, pc, pd);
    case User => AbsorberIsNear(n, total, b, a, c, d, pb, pa, pc, pd);
    case Assistant => AbsorberIsNear(n, total, c, a, b, d, pc, pa, pb, pd);
    case Tool => AbsorberIsNear(n, total, d, a, b, c, pd, pa, pb, pc);
  }

  lemma NearestCopies(messages: seq<Message>, total: int, shares: map<Role, int>, out: map<Role, int>, r: Role)
    requires NearestAt(messages, total, shares, r) && At(out, r) == At(shares, r)
    ensures NearestAt(messages, total, out, r)
  {
  }

  lemma OneAbsorber(shares: map<Role, int>, total: int)
    requires exists r :: r in shares
    ensures var big := Largest(shares);
            big in Settled(shares, total) && forall r :: r != big ==> At(Settled(shares, total), r) == At(shares, r)
  {
    LargestIsFirst(shares);
  }

  /**
   Each role's part is the integer nearest to its exact share, except for one role,
   whose part also takes the drift and stays within one and a half tokens.
   */
  lemma PartsAreNearest(messages: seq<Message>, total: int)
    requires AllChars(messages) > 0
    ensures var out, big := Attribution(messages, total), Largest(Rounded(messages, total));
            && big in out && AllNearestBut(messages, total, out, big)
            && Near(At(out, big), total * Chars(messages, big), AllChars(messages))
  {
    SomeRole(messages, total);
    var shares := Rounded(messages, total);
    var out, big := Attribution(messages, total), Largest(shares);
    OneAbsorber(shares, total);
    PartsSumToTotal(messages, total);
    forall r | r != big ensures NearestAt(messages, total, out, r) {
      RoundedIsNearest(messages, total, r);
      NearestCopies(messages, total, shares, out, r);
    }
    AllButOneNearest(messages, total, out, big);
  }
}
