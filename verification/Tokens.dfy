/** Which credential an invoice goes out under: the routing in
    backend/apps/fbr/tasks.py (lines 54-206), token_for_invoice and the token services in
    backend/apps/fbr/services.py, and the sandbox form in backend/apps/fbr/views.py. */
module Tokens {
  import opened Environments
  import opened Wrappers

  datatype Credential = Credential(bearer: string, endpoint: string, active: bool)

  /** A branch's rows in primary-key order; (branch, environment) is unique. */
  datatype BranchRow = BranchRow(environment: Environment, credential: Credential)

  /** fbr_tokens of one tenant, unique by environment, and branch_fbr_tokens. */
  datatype Tables = Tables(tenant: map<Environment, Credential>, branches: map<nat, seq<BranchRow>>)

  datatype Token = TenantToken(environment: Environment) | BranchToken(branch: nat, environment: Environment)

  datatype Connection = DiApi | ImsSdc | PraCloud | NonFiscalTenant

  datatype Route =
    | NotFiscal | LocalSdc
    | ToFbrCloud(token: Token) | ToPraCloud(token: Token) | ToDi(token: Token)
    | Deferred

  function BranchRows(t: Tables, branch: nat): seq<BranchRow> {
    if branch in t.branches then t.branches[branch] else []
  }

  /** .filter(branch_id=..., is_active=True).first() */
  function FirstActive(rows: seq<BranchRow>, branch: nat): Option<Token> {
    if rows == [] then None
    else if rows[0].credential.active then Some(BranchToken(branch, rows[0].environment))
    else FirstActive(rows[1..], branch)
  }

  function ActiveTenant(t: Tables, env: Environment): Option<Token> {
    if env in t.tenant && t.tenant[env].active then Some(TenantToken(env)) else None
  }

  function OrElse(a: Option<Token>, b: Option<Token>): Option<Token> {
    if a.Some? then a else b
  }

  /** token_for_invoice */
  function TokenForInvoice(t: Tables, branch: nat): Option<Token> {
    OrElse(FirstActive(BranchRows(t, branch), branch),
           OrElse(ActiveTenant(t, Production), ActiveTenant(t, Sandbox)))
  }

  /** The routing of submit_invoice_to_fbr. */
  function RouteOf(conn: Connection, sdcConfigured: bool, hasPosId: bool, t: Tables, branch: nat): Route {
    var rows := BranchRows(t, branch);
    var branchToken := FirstActive(rows, branch);
    if conn == NonFiscalTenant then NotFiscal
    else if conn == ImsSdc && sdcConfigured && hasPosId then LocalSdc
    else if conn == DiApi && hasPosId && branchToken.Some? then ToFbrCloud(branchToken.value)
    else if conn == PraCloud && hasPosId then
      var cloud := OrElse(branchToken, OrElse(ActiveTenant(t, Production), ActiveTenant(t, Sandbox)));
      if cloud.None? then Deferred else ToPraCloud(cloud.value)
    else if rows != [] then
      if branchToken.None? then Deferred else ToDi(branchToken.value)
    else
      var token := if Production in t.tenant then ActiveTenant(t, Production) else ActiveTenant(t, Sandbox);
      if token.None? then Deferred else ToDi(token.value)
  }

  predicate CarriesToken(r: Route) {
    r.ToFbrCloud? || r.ToPraCloud? || r.ToDi?
  }

  /** The amendments of an invoice use the credential that submitting it would use, for
      every tenant type and every token table. */
  lemma CredentialAgrees(conn: Connection, sdcConfigured: bool, hasPosId: bool, t: Tables, branch: nat)
    ensures var r := RouteOf(conn, sdcConfigured, hasPosId, t, branch);
      CarriesToken(r) ==> TokenForInvoice(t, branch) == Some(r.token)
  {
  }

  predicate AnyActive(rows: seq<BranchRow>) {
    exists r <- rows :: r.credential.active
  }

  lemma {:induction false} FirstActiveFinds(rows: seq<BranchRow>, branch: nat)
    ensures FirstActive(rows, branch).Some? <==> AnyActive(rows)
  {
    if rows != [] && !rows[0].credential.active {
      FirstActiveFinds(rows[1..], branch);
      assert AnyActive(rows) <==> AnyActive(rows[1..]) by {
        assert rows == [rows[0]] + rows[1..];
      }
    } else if rows != [] {
      assert rows[0] in rows;
    }
  }

  /** The two do disagree in one direction. Where submission defers, an amendment still goes
      out under a fallback token exactly when, off the PRA route, the branch has no active
      token and either it has inactive ones while some tenant token is active, or it has
      none while the production token is revoked and the sandbox token is active. */
  lemma AmendsWhereSubmitDefers(conn: Connection, sdcConfigured: bool, hasPosId: bool, t: Tables, branch: nat)
    ensures var rows := BranchRows(t, branch);
      var production, sandbox := ActiveTenant(t, Production).Some?, ActiveTenant(t, Sandbox).Some?;
      (RouteOf(conn, sdcConfigured, hasPosId, t, branch) == Deferred && TokenForInvoice(t, branch).Some?)
      <==>
      && conn != NonFiscalTenant && !(conn == ImsSdc && sdcConfigured && hasPosId) && !(conn == PraCloud && hasPosId)
      && !AnyActive(rows)
      && (if rows != [] then production || sandbox else Production in t.tenant && !production && sandbox)
  {
    FirstActiveFinds(BranchRows(t, branch), branch);
  }

  /** The branch's credential is its first active row. */
  lemma {:induction false} FirstActiveIsFirst(rows: seq<BranchRow>, branch: nat, n: nat)
    requires n <= |rows| && forall j :: 0 <= j < n ==> !rows[j].credential.active
    ensures n == |rows| ==> FirstActive(rows, branch) == None
    ensures n < |rows| && rows[n].credential.active ==>
      FirstActive(rows, branch) == Some(BranchToken(branch, rows[n].environment))
  {
    if n != 0 {
      FirstActiveIsFirst(rows[1..], branch, n - 1);
    }
  }

  ghost predicate TenantActive(t: Tables, env: Environment) {
    env in t.tenant && t.tenant[env].active
  }

  /** An amendment's credential: the branch's, else production, else sandbox, each only while
      it is active. */
  lemma AmendmentTokenExactly(t: Tables, branch: nat)
    ensures var rows := if branch in t.branches then t.branches[branch] else [];
      TokenForInvoice(t, branch) ==
        if AnyActive(rows) then FirstActive(rows, branch)
        else if TenantActive(t, Production) then Some(TenantToken(Production))
        else if TenantActive(t, Sandbox) then Some(TenantToken(Sandbox))
        else None
  {
    FirstActiveFinds(BranchRows(t, branch), branch);
  }

  /** Where a submission goes, for every tenant type and token table. */
  lemma RouteExactly(conn: Connection, sdcConfigured: bool, hasPosId: bool, t: Tables, branch: nat)
    ensures var rows := if branch in t.branches then t.branches[branch] else [];
      var own := FirstActive(rows, branch);
      RouteOf(conn, sdcConfigured, hasPosId, t, branch) ==
        if conn == NonFiscalTenant then NotFiscal
        else if conn == ImsSdc && sdcConfigured && hasPosId then LocalSdc
        else if conn == PraCloud && hasPosId then
          if own.Some? then ToPraCloud(own.value)
          else if TenantActive(t, Production) then ToPraCloud(TenantToken(Production))
          else if TenantActive(t, Sandbox) then ToPraCloud(TenantToken(Sandbox))
          else Deferred
        else if own.Some? then if conn == DiApi && hasPosId then ToFbrCloud(own.value) else ToDi(own.value)
        else if rows != [] then Deferred
        else if TenantActive(t, Production) then ToDi(TenantToken(Production))
        else if Production !in t.tenant && TenantActive(t, Sandbox) then ToDi(TenantToken(Sandbox))
        else Deferred
  {
  }

  // ---- Token operations ----------------------------------------------------

  datatype Operation =
    | SubmitSandbox(bearer: string, endpoint: string)
    | ActivateProduction(bearer: string, endpoint: string, scenariosCleared: bool)
    | ActivateBranch(branch: nat, environment: Environment, bearer: string, endpoint: string)
    | DeactivateBranch(branch: nat, environment: Environment)
    | AuthFailure(token: Token)

  /** update_or_create, keeping the stored bearer when none is supplied; None when there is
      nothing to keep. */
  function Upsert(existing: Option<Credential>, bearer: string, endpoint: string): Option<Credential> {
    if bearer != "" then Some(Credential(bearer, endpoint, true))
    else if existing.Some? then Some(Credential(existing.value.bearer, endpoint, true))
    else None
  }

  function Lookup(t: Tables, env: Environment): Option<Credential> {
    if env in t.tenant then Some(t.tenant[env]) else None
  }

  function Deactivated(c: Credential): Credential {
    c.(active := false)
  }

  function ProductionActivated(t: Tables, bearer: string, endpoint: string, scenariosCleared: bool): Option<Tables> {
    var row := Upsert(Lookup(t, Production), bearer, endpoint);
    if !scenariosCleared || row.None? then None
    else
      var tenant := t.tenant[Production := row.value];
      Some(t.(tenant := if Sandbox in tenant then tenant[Sandbox := Deactivated(tenant[Sandbox])] else tenant))
  }

  function RowIndex(rows: seq<BranchRow>, env: Environment): (i: nat)
    ensures i <= |rows|
    ensures i < |rows| ==> rows[i].environment == env
  {
    if rows == [] || rows[0].environment == env then 0 else 1 + RowIndex(rows[1..], env)
  }

  function Perform(t: Tables, op: Operation): Tables {
    match op
    case SubmitSandbox(bearer, endpoint) =>
      var row := Upsert(Lookup(t, Sandbox), bearer, endpoint);
      if row.None? then t else t.(tenant := t.tenant[Sandbox := row.value])
    case ActivateProduction(bearer, endpoint, cleared) => ProductionActivated(t, bearer, endpoint, cleared).GetOr(t)
    case ActivateBranch(branch, env, bearer, endpoint) =>
      var rows := BranchRows(t, branch);
      var i := RowIndex(rows, env);
      var row := Upsert(if i < |rows| then Some(rows[i].credential) else None, bearer, endpoint);
      if row.None? then t
      else if i < |rows| then t.(branches := t.branches[branch := rows[i := BranchRow(env, row.value)]])
      else t.(branches := t.branches[branch := rows + [BranchRow(env, row.value)]])
    case DeactivateBranch(branch, env) => WithBranchInactive(t, branch, env)
    case AuthFailure(TenantToken(env)) =>
      if env in t.tenant then t.(tenant := t.tenant[env := Deactivated(t.tenant[env])]) else t
    case AuthFailure(BranchToken(branch, env)) => WithBranchInactive(t, branch, env)
  }

  function WithBranchInactive(t: Tables, branch: nat, env: Environment): Tables {
    var rows := BranchRows(t, branch);
    var i := RowIndex(rows, env);
    if i < |rows|
    then t.(branches := t.branches[branch := rows[i := BranchRow(env, Deactivated(rows[i].credential))]])
    else t
  }

  /** Saving the sandbox form stores the endpoint and activates the row, with the given
      bearer or else the stored one; without either it changes nothing. */
  lemma SubmitSandboxExactly(t: Tables, bearer: string, endpoint: string)
    ensures var t' := Perform(t, SubmitSandbox(bearer, endpoint));
      && t'.branches == t.branches
      && t'.tenant == if bearer != "" then t.tenant[Sandbox := Credential(bearer, endpoint, true)]
                      else if Sandbox in t.tenant
                        then t.tenant[Sandbox := Credential(t.tenant[Sandbox].bearer, endpoint, true)]
                      else t.tenant
  {
  }

  /** Activation needs the scenarios cleared and a bearer, given or stored; it activates
      production and deactivates a sandbox row, whose bearer it keeps. */
  lemma ActivationExactly(t: Tables, bearer: string, endpoint: string, cleared: bool)
    ensures var t' := Perform(t, ActivateProduction(bearer, endpoint, cleared));
      && t'.branches == t.branches
      && if !cleared || (bearer == "" && Production !in t.tenant) then t' == t
         else
           && t'.tenant.Keys == t.tenant.Keys + {Production}
           && t'.tenant[Production]
              == Credential(if bearer != "" then bearer else t.tenant[Production].bearer, endpoint, true)
           && (Sandbox in t.tenant ==> t'.tenant[Sandbox] == t.tenant[Sandbox].(active := false))
  {
  }

  /** A branch has one row an environment: activating replaces it in place or appends it, and
      leaves every other row. */
  lemma ActivateBranchExactly(t: Tables, branch: nat, env: Environment, bearer: string, endpoint: string)
    requires bearer != ""
    ensures var t' := Perform(t, ActivateBranch(branch, env, bearer, endpoint));
      var rows, rows' := BranchRows(t, branch), BranchRows(t', branch);
      var i := RowIndex(rows, env);
      && t'.tenant == t.tenant && t'.branches == t.branches[branch := rows']
      && (forall j :: 0 <= j < i ==> rows[j].environment != env)
      && rows' == rows[..i] + [BranchRow(env, Credential(bearer, endpoint, true))]
                  + (if i < |rows| then rows[i + 1..] else [])
  {
    RowIndexIsFirst(BranchRows(t, branch), env);
  }

  lemma {:induction false} RowIndexIsFirst(rows: seq<BranchRow>, env: Environment)
    ensures forall j :: 0 <= j < RowIndex(rows, env) ==> rows[j].environment != env
  {
    if rows != [] && rows[0].environment != env {
      RowIndexIsFirst(rows[1..], env);
    }
  }

  /** A refused credential is deactivated, and nothing but its flag changes. */
  lemma AuthFailureExactly(t: Tables, token: Token)
    ensures var t' := Perform(t, AuthFailure(token));
      match token
      case TenantToken(env) =>
        && t'.branches == t.branches
        && t'.tenant == if env in t.tenant then t.tenant[env := t.tenant[env].(active := false)] else t.tenant
      case BranchToken(branch, env) =>
        && t'.tenant == t.tenant
        && t' == Perform(t, DeactivateBranch(branch, env))
        && var rows := BranchRows(t, branch);
          var i := RowIndex(rows, env);
          if i < |rows| then
            t'.branches == t.branches[branch := rows[i := rows[i].(credential := rows[i].credential.(active := false))]]
          else t' == t
  {
  }

  function PerformAll(t: Tables, ops: seq<Operation>): Tables
    decreases |ops|
  {
    if ops == [] then t else PerformAll(Perform(t, ops[0]), ops[1..])
  }

  /** Once a tenant has a production row, whatever token operations follow, no submission
      outside the PRA cloud uses the tenant's sandbox token, even while production is
      revoked. */
  lemma {:induction false} NeverSandboxAfterProduction(t: Tables, ops: seq<Operation>, conn: Connection,
                                                       sdcConfigured: bool, hasPosId: bool, branch: nat)
    requires Production in t.tenant
    ensures var r := RouteOf(conn, sdcConfigured, hasPosId, PerformAll(t, ops), branch);
      !r.ToPraCloud? && CarriesToken(r) ==> r.token != TenantToken(Sandbox)
    decreases |ops|
  {
    if ops == [] {
      FirstActiveIsBranch(BranchRows(t, branch), branch);
    } else {
      NeverSandboxAfterProduction(Perform(t, ops[0]), ops[1..], conn, sdcConfigured, hasPosId, branch);
    }
  }

  lemma {:induction false} FirstActiveIsBranch(rows: seq<BranchRow>, branch: nat)
    ensures FirstActive(rows, branch).Some? ==> FirstActive(rows, branch).value.BranchToken?
  {
    if rows != [] {
      FirstActiveIsBranch(rows[1..], branch);
    }
  }

  /** The exception is real: a PRA tenant whose sandbox form is submitted again after
      activation, and whose production token is then revoked, submits under sandbox. */
  lemma PraFallsBackToSandbox(t: Tables, bearer: string, endpoint: string, branch: nat)
    requires BranchRows(t, branch) == [] && bearer != ""
    ensures var t' := PerformAll(t, [ActivateProduction(bearer, endpoint, true),
                                     SubmitSandbox(bearer, endpoint),
                                     AuthFailure(TenantToken(Production))]);
      && Production in t'.tenant
      && RouteOf(PraCloud, false, true, t', branch) == ToPraCloud(TenantToken(Sandbox))
  {
    var ops := [ActivateProduction(bearer, endpoint, true), SubmitSandbox(bearer, endpoint),
                AuthFailure(TenantToken(Production))];
    var t1 := Perform(t, ops[0]);
    var t2 := Perform(t1, ops[1]);
    assert ops[1..][0] == ops[1] && ops[1..][1..][0] == ops[2] && ops[1..][1..][1..] == [];
    assert PerformAll(t, ops) == PerformAll(t1, ops[1..]) == PerformAll(t2, ops[1..][1..]);
    assert PerformAll(Perform(t2, ops[2]), []) == Perform(t2, ops[2]);
  }

  class TokenStore {
    var tables: Tables

    constructor (tables: Tables)
      ensures this.tables == tables
    {
      this.tables := tables;
    }

    /** activate_production_token (services.py, lines 300-372); a refusal raises. */
    method ActivateProductionToken(bearer: string, endpoint: string, scenariosCleared: bool) returns (ok: bool)
      modifies this
      ensures var r := ProductionActivated(old(tables), bearer, endpoint, scenariosCleared);
        ok == r.Some? && tables == r.GetOr(old(tables))
    {
      if !scenariosCleared {
        return false;
      }
      var existing := Lookup(tables, Production);
      if bearer == "" && existing.None? {
        return false;
      }
      var row := Credential(if existing.Some? then existing.value.bearer else "", endpoint, true);
      tables := tables.(tenant := tables.tenant[Production := row]);
      if bearer != "" {
        row := row.(bearer := bearer);
        tables := tables.(tenant := tables.tenant[Production := row]);
      }
      if Sandbox in tables.tenant && tables.tenant[Sandbox].active {
        tables := tables.(tenant := tables.tenant[Sandbox := Deactivated(tables.tenant[Sandbox])]);
      }
      return true;
    }
  }
}
