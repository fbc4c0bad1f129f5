/**
 * `getVentas`: two tokens from fixed allow-lists choose a payment-type and
 * a client-type filter; a caller who is not the administrator only sees
 * their own sales at their own branch; the rows come back newest first.
 */
module Listing {
  import opened Wrappers
  import opened Schema

  datatype KindFilter = AnyKind | CashOnly | CreditOnly
  datatype ClientFilter = AnyClient | NaturalOnly | LegalOnly

  /**
   * The authenticated caller: user name, employee and the branch of the
   * employee's department, which the department table may leave null.
   */
  datatype User = User(name: string, employee: string, branch: Option<string>)

  datatype ListError = BadParameters  // 400

  const AdminName: string := "admin"

  function ParseKind(token: string): (r: Option<KindFilter>)
    ensures r.Some? <==> token in ["v-todas", "v-contado", "v-credito"]
  {
    if token == "v-todas" then Some(AnyKind)
    else if token == "v-contado" then Some(CashOnly)
    else if token == "v-credito" then Some(CreditOnly)
    else None
  }

  function ParseClient(token: string): (r: Option<ClientFilter>)
    ensures r.Some? <==> token in ["c-todos", "c-natural", "c-juridico"]
  {
    if token == "c-todos" then Some(AnyClient)
    else if token == "c-natural" then Some(NaturalOnly)
    else if token == "c-juridico" then Some(LegalOnly)
    else None
  }

  /**
   * The caller may see the sale: the administrator sees all, anyone else
   * their own at their branch. A null branch compares as `whereNull`, so
   * such a caller sees their own sales that have no branch.
   */
  predicate InScope(s: Sale, user: User) {
    user.name != AdminName ==> s.employee == user.employee && s.branch == user.branch
  }

  predicate KindMatches(s: Sale, k: KindFilter) {
    match k
    case AnyKind => true
    case CashOnly => s.kind == 0
    case CreditOnly => s.kind == 1
  }

  /** `whereHas`: the sale's reference of that kind is set and resolves to a client row. */
  predicate ClientMatches(s: Sale, db: Db, c: ClientFilter) {
    match c
    case AnyClient => true
    case NaturalOnly => s.naturalClient.Some? && s.naturalClient.value in db.naturalClients
    case LegalOnly => s.legalClient.Some? && s.legalClient.value in db.legalClients
  }

  predicate Listed(s: Sale, db: Db, user: User, k: KindFilter, c: ClientFilter) {
    InScope(s, user) && KindMatches(s, k) && ClientMatches(s, db, c)
  }

  /** The query's `where` clauses: the sales that pass every filter, in table order. */
  function Select(sales: seq<Sale>, db: Db, user: User, k: KindFilter, c: ClientFilter): (r: seq<Sale>)
    ensures forall x :: x in r <==> x in sales && Listed(x, db, user, k, c)
    ensures multiset(r) <= multiset(sales)
    ensures forall x :: multiset(r)[x] == if Listed(x, db, user, k, c) then multiset(sales)[x] else 0
  {
    if |sales| == 0 then []
    else
      var rest := Select(sales[1..], db, user, k, c);
      assert sales == [sales[0]] + sales[1..];
      if Listed(sales[0], db, user, k, c) then [sales[0]] + rest else rest
  }

  predicate NewestFirst(s: seq<Sale>) {
    forall i, j :: 0 <= i < j < |s| ==> s[i].date >= s[j].date
  }

  /** No sale in `s` is dated after `d`. */
  predicate NoneAfter(s: seq<Sale>, d: int) {
    forall k :: 0 <= k < |s| ==> s[k].date <= d
  }

  /** Places `x` into a newest-first sequence. */
  function Insert(x: Sale, s: seq<Sale>): (r: seq<Sale>)
    requires NewestFirst(s)
    ensures multiset(r) == multiset(s) + multiset{x}
    ensures forall d :: NoneAfter(s, d) && x.date <= d ==> NoneAfter(r, d)
    ensures NewestFirst(r)
  {
    if |s| == 0 || s[0].date <= x.date then
      HeadBoundsAll(s, x.date);
      PrependKeepsOrder(x, s);
      [x] + s
    else
      TailKeepsOrder(s);
      var rest := Insert(x, s[1..]);
      assert s == [s[0]] + s[1..];
      PrependKeepsOrder(s[0], rest);
      [s[0]] + rest
  }

  /** Nothing in a newest-first sequence is dated after its head. */
  lemma HeadBoundsAll(s: seq<Sale>, d: int)
    requires NewestFirst(s) && (|s| == 0 || s[0].date <= d)
    ensures NoneAfter(s, d)
  {
  }

  /** The tail of a newest-first sequence is newest first and no newer than the head. */
  lemma TailKeepsOrder(s: seq<Sale>)
    requires NewestFirst(s) && |s| > 0
    ensures NewestFirst(s[1..]) && NoneAfter(s[1..], s[0].date)
  {
  }

  /** A sale no older than anything after it can head a newest-first sequence. */
  lemma PrependKeepsOrder(head: Sale, rest: seq<Sale>)
    requires NewestFirst(rest) && NoneAfter(rest, head.date)
    ensures NewestFirst([head] + rest)
  {
  }

  /** `orderBy('fecha', 'desc')`: the same rows, newest first. */
  function SortByDate(s: seq<Sale>): (r: seq<Sale>)
    ensures NewestFirst(r)
    ensures multiset(r) == multiset(s)
  {
    if |s| == 0 then []
    else
      assert s == [s[0]] + s[1..];
      Insert(s[0], SortByDate(s[1..]))
  }

  /**
   * The whole of `getVentas`: a 400 for a token outside its allow-list,
   * otherwise the listed sales, newest first.
   */
  function ListSales(db: Db, user: User, kindToken: string, clientToken: string): (r: Result<seq<Sale>, ListError>)
    ensures r.Failure? <==>
      kindToken !in ["v-todas", "v-contado", "v-credito"] || clientToken !in ["c-todos", "c-natural", "c-juridico"]
    ensures r.Success? ==> NewestFirst(r.value)
  {
    match (ParseKind(kindToken), ParseClient(clientToken))
    case (Some(k), Some(c)) => Success(SortByDate(Select(db.sales, db, user, k, c)))
    case _ => Failure(BadParameters)
  }

  // ---------------------------------------------------------------------
  // Lemmas
  // ---------------------------------------------------------------------

  /**
   * The listing holds exactly the sales of the table that pass the filters,
   * each exactly as often as in the table, and only such sales.
   */
  lemma ListSalesExact(db: Db, user: User, kindToken: string, clientToken: string)
    requires ListSales(db, user, kindToken, clientToken).Success?
    ensures var r := ListSales(db, user, kindToken, clientToken).value;
      var k := ParseKind(kindToken).value;
      var c := ParseClient(clientToken).value;
      && multiset(r) <= multiset(db.sales)
      && (forall x :: multiset(r)[x] == if Listed(x, db, user, k, c) then multiset(db.sales)[x] else 0)
      && forall x :: x in r <==> x in db.sales && Listed(x, db, user, k, c)
  {
    var r := ListSales(db, user, kindToken, clientToken).value;
    var sel := Select(db.sales, db, user, ParseKind(kindToken).value, ParseClient(clientToken).value);
    assert multiset(r) == multiset(sel);
    forall x ensures x in r <==> x in sel {
      assert x in r <==> x in multiset(r);
      assert x in sel <==> x in multiset(sel);
    }
  }

  /**
   * A caller other than the administrator never sees another employee's
   * sale or another branch's; with a null branch they see only sales that
   * have none.
   */
  lemma NonAdminSeesOwnBranch(db: Db, user: User, kindToken: string, clientToken: string)
    requires user.name != AdminName
    requires ListSales(db, user, kindToken, clientToken).Success?
    ensures forall x :: x in ListSales(db, user, kindToken, clientToken).value ==>
      x.employee == user.employee && x.branch == user.branch
  {
    ListSalesExact(db, user, kindToken, clientToken);
  }

  /**
   * The type tokens filter as named: v-contado lists only cash sales,
   * v-credito only credit sales, c-natural only sales with a natural
   * client and c-juridico only sales with a legal client.
   */
  lemma TokensFilterAsNamed(db: Db, user: User, kindToken: string, clientToken: string)
    requires ListSales(db, user, kindToken, clientToken).Success?
    ensures forall x :: x in ListSales(db, user, kindToken, clientToken).value ==>
      && (kindToken == "v-contado" ==> x.kind == 0)
      && (kindToken == "v-credito" ==> x.kind == 1)
      && (clientToken == "c-natural" ==> x.naturalClient.Some?)
      && (clientToken == "c-juridico" ==> x.legalClient.Some?)
  {
    ListSalesExact(db, user, kindToken, clientToken);
  }

  /** Without filters the administrator gets every sale of the table, newest first. */
  lemma AdminUnfilteredListsAll(db: Db, user: User)
    requires user.name == AdminName
    ensures ListSales(db, user, "v-todas", "c-todos").Success?
    ensures multiset(ListSales(db, user, "v-todas", "c-todos").value) == multiset(db.sales)
  {
    SelectAll(db.sales, db, user);
  }

  lemma {:induction false} SelectAll(sales: seq<Sale>, db: Db, user: User)
    requires user.name == AdminName
    ensures Select(sales, db, user, AnyKind, AnyClient) == sales
  {
    if |sales| > 0 {
      SelectAll(sales[1..], db, user);
      SelectKeepsHead(sales, db, user, AnyKind, AnyClient);
      assert sales == [sales[0]] + sales[1..];
    }
  }

  /** A listed first row stays first, ahead of the selection from the rest. */
  lemma SelectKeepsHead(sales: seq<Sale>, db: Db, user: User, k: KindFilter, c: ClientFilter)
    requires |sales| > 0 && Listed(sales[0], db, user, k, c)
    ensures Select(sales, db, user, k, c) == [sales[0]] + Select(sales[1..], db, user, k, c)
  {
  }

  /**
   * A sale without a branch is listed for its own employee, when that
   * employee is not the administrator, exactly when the employee's
   * department has a null branch too.
   */
  lemma BranchlessSaleVisibleIff(db: Db, user: User, s: Sale)
    requires user.name != AdminName && s in db.sales
    requires s.employee == user.employee && s.branch.None?
    ensures ListSales(db, user, "v-todas", "c-todos").Success?
    ensures s in ListSales(db, user, "v-todas", "c-todos").value <==> user.branch.None?
  {
    ListSalesExact(db, user, "v-todas", "c-todos");
  }
}
