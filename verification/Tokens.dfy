/** Client tokens: issuing, verifying, disabling, revoking, rotating and revealing keys. */
module Tokens {
  import opened Prelude
  import Limits

  const TOKEN_SCHEME := "gz"

  datatype Status = Active | Disabled | Revoked

  /** The keyed digest and the envelope encryption; the prefix is the associated data. */
  datatype Crypto = Crypto(digest: string -> string, encrypt: (string, string) -> string,
                           decrypt: (string, string) -> Option<string>)

  /** No two secrets share a digest, and decryption under the same prefix undoes encryption. */
  ghost predicate Sound(crypto: Crypto) {
    && (forall a, b :: crypto.digest(a) == crypto.digest(b) ==> a == b)
    && (forall text, aad :: crypto.decrypt(crypto.encrypt(text, aad), aad) == Some(text))
  }

  /** A row; `secretBox` is the encrypted presentable key, absent in rows older than that feature. */
  datatype Token = Token(idPrefix: string, tokenHash: string, name: string, status: Status, chain: Option<nat>,
                         secretBox: Option<string>)

  datatype TokenError = NotFound | PrefixInUse | AlreadyRevoked | NotRevealable | Malformed | Mismatch

  datatype Issued = Issued(tokenId: nat, idPrefix: string, name: string, status: Status, chain: Option<nat>,
                           secret: string)

  datatype AuthResult = AuthResult(tokenId: nat, chain: Option<nat>)

  // --- The key format --------------------------------------------------------

  predicate HyphenFree(text: string) {
    forall j | 0 <= j < |text| :: text[j] != '-'
  }

  function FormatToken(idPrefix: string, secret: string): string {
    TOKEN_SCHEME + "-" + idPrefix + "-" + secret
  }

  /** Split at the first two hyphens; a secret keeps the hyphens it has. */
  function ParseToken(presented: string): Option<(string, string)> {
    var i := IndexOf(presented, '-');
    if i == |presented| then None
    else
      var rest := presented[i + 1..];
      var j := IndexOf(rest, '-');
      if j == |rest| || presented[..i] != TOKEN_SCHEME || j == 0 || j + 1 == |rest| then None
      else Some((rest[..j], rest[j + 1..]))
  }

  lemma HyphenAt(head: string, tail: string)
    requires HyphenFree(head)
    ensures IndexOf(head + "-" + tail, '-') == |head|
  {
    var text := head + "-" + tail;
    assert text[|head|] == '-';
    assert forall j | 0 <= j < |head| :: text[j] == head[j];
  }

  lemma SplitAt(head: string, tail: string)
    requires HyphenFree(head)
    ensures var text := head + "-" + tail;
            && IndexOf(text, '-') == |head| < |text| && text[..|head|] == head && text[|head| + 1..] == tail
  {
    HyphenAt(head, tail);
  }

  lemma FormatParses(idPrefix: string, secret: string)
    requires HyphenFree(idPrefix) && idPrefix != "" && secret != ""
    ensures ParseToken(FormatToken(idPrefix, secret)) == Some((idPrefix, secret))
  {
    hide IndexOf;
    var presented, rest := FormatToken(idPrefix, secret), idPrefix + "-" + secret;
    assert presented == TOKEN_SCHEME + "-" + rest;
    SplitAt(TOKEN_SCHEME, rest);
    SplitAt(idPrefix, secret);
    hide FormatToken;
  }

  lemma ParsedIsFormatted(presented: string)
    requires ParseToken(presented).Some?
    ensures var (idPrefix, secret) := ParseToken(presented).value;
            presented == FormatToken(idPrefix, secret) && HyphenFree(idPrefix) && idPrefix != "" && secret != ""
  {
    hide IndexOf;
    var (idPrefix, secret) := ParseToken(presented).value;
    var rest := presented[IndexOf(presented, '-') + 1..];
    assert rest == idPrefix + "-" + secret;
    assert presented == TOKEN_SCHEME + "-" + rest;
    assert presented == FormatToken(idPrefix, secret);
  }

  /** Parsing accepts exactly the formatted keys with a hyphen-free, non-empty prefix and a
      non-empty secret, and gives back their two parts. */
  lemma ParseFormatsIff(presented: string, idPrefix: string, secret: string)
    ensures ParseToken(presented) == Some((idPrefix, secret))
       <==> presented == FormatToken(idPrefix, secret) && HyphenFree(idPrefix) && idPrefix != "" && secret != ""
  {
    hide ParseToken, FormatToken;
    if presented == FormatToken(idPrefix, secret) && HyphenFree(idPrefix) && idPrefix != "" && secret != "" {
      FormatParses(idPrefix, secret);
    }
    if ParseToken(presented).Some? {
      ParsedIsFormatted(presented);
    }
  }

  // --- What the table holds ----------------------------------------------------

  function FindPrefix(tokens: seq<Token>, idPrefix: string): (i: nat)
    ensures i <= |tokens| && (i < |tokens| ==> tokens[i].idPrefix == idPrefix)
    ensures forall j | 0 <= j < i :: tokens[j].idPrefix != idPrefix
  {
    IndexWhere(tokens, (t: Token) => t.idPrefix == idPrefix)
  }

  /** The row authenticates this key. */
  predicate Opens(crypto: Crypto, token: Token, key: string) {
    var parsed := ParseToken(key);
    parsed.Some? && parsed.value.0 == token.idPrefix && crypto.digest(parsed.value.1) == token.tokenHash
  }

  /** A row and the key issued for it. */
  predicate RowFits(crypto: Crypto, token: Token, key: string) {
    && Opens(crypto, token, key)
    && (token.secretBox.Some? ==> crypto.decrypt(token.secretBox.value, token.idPrefix) == Some(key))
  }

  ghost predicate ValidRows(crypto: Crypto, tokens: seq<Token>, keys: seq<string>) {
    && Sound(crypto) && |tokens| == |keys|
    && (forall i | 0 <= i < |tokens| :: RowFits(crypto, tokens[i], keys[i]))
    && (forall i, j | 0 <= i < j < |tokens| :: tokens[i].idPrefix != tokens[j].idPrefix)
  }

  /** A row opens for one key only. */
  lemma OpensOneKey(crypto: Crypto, token: Token, a: string, b: string)
    requires Sound(crypto) && Opens(crypto, token, a) && Opens(crypto, token, b)
    ensures a == b
  {
    var x, y := ParseToken(a).value, ParseToken(b).value;
    ParseFormatsIff(a, x.0, x.1);
    ParseFormatsIff(b, y.0, y.1);
    assert crypto.digest(x.1) == crypto.digest(y.1);
  }

  /** The row of a newly issued key. */
  function NewRow(crypto: Crypto, name: string, chain: Option<nat>, idPrefix: string, secret: string): Token {
    Token(idPrefix, crypto.digest(secret), name, Active, chain,
          Some(crypto.encrypt(FormatToken(idPrefix, secret), idPrefix)))
  }

  lemma FreshKeyFits(crypto: Crypto, name: string, chain: Option<nat>, idPrefix: string, secret: string)
    requires Sound(crypto) && Drawn(idPrefix, secret)
    ensures var row := NewRow(crypto, name, chain, idPrefix, secret);
            row.idPrefix == idPrefix && RowFits(crypto, row, FormatToken(idPrefix, secret))
  {
    ParseFormatsIff(FormatToken(idPrefix, secret), idPrefix, secret);
  }

  /** The row is active, carries the name and the chain, and its box holds the key. */
  predicate Issues(crypto: Crypto, row: Token, name: string, chain: Option<nat>, idPrefix: string, key: string) {
    && row.status == Active && row.name == name && row.chain == chain && row.idPrefix == idPrefix
    && row.secretBox.Some? && crypto.decrypt(row.secretBox.value, idPrefix) == Some(key)
  }

  lemma KeyText(idPrefix: string, secret: string)
    ensures FormatToken(idPrefix, secret) == "gz-" + idPrefix + "-" + secret
  {
  }

  lemma NewRowIssues(crypto: Crypto, name: string, chain: Option<nat>, idPrefix: string, secret: string)
    requires Sound(crypto)
    ensures Issues(crypto, NewRow(crypto, name, chain, idPrefix, secret), name, chain, idPrefix,
                   "gz-" + idPrefix + "-" + secret)
  {
    KeyText(idPrefix, secret);
  }

  /** The row that parsing and prefix lookup find holds the presented key or no row does. */
  lemma LookupFinds(crypto: Crypto, tokens: seq<Token>, keys: seq<string>, presented: string, id: nat)
    requires ValidRows(crypto, tokens, keys) && id < |tokens|
    ensures keys[id] == presented
       <==> Opens(crypto, tokens[id], presented) && FindPrefix(tokens, ParseToken(presented).value.0) == id
  {
    assert RowFits(crypto, tokens[id], keys[id]);
    hide ParseToken, FindPrefix;
    if Opens(crypto, tokens[id], presented) {
      OpensOneKey(crypto, tokens[id], presented, keys[id]);
    }
  }

  lemma AddedRowValid(crypto: Crypto, tokens: seq<Token>, keys: seq<string>, token: Token, key: string)
    requires ValidRows(crypto, tokens, keys) && RowFits(crypto, token, key)
    requires FindPrefix(tokens, token.idPrefix) == |tokens|
    ensures ValidRows(crypto, tokens + [token], keys + [key])
  {
    hide RowFits;
  }

  /** A command of an operator; prefixes and secrets are the random draws it uses. The last
      two are what the token table sees of the chain table. */
  datatype Command =
    | CreateCommand(name: string, limit: Option<Limits.ValidLimit>, chain: Option<nat>, idPrefix: string,
                    secret: string)
    | EnableCommand(id: nat, enabled: bool)
    | RevokeCommand(id: nat)
    | RotateCommand(id: nat, idPrefix: string, secret: string)
    | StoreCommand(id: nat, presentable: string)
    | ChainCreated(chainId: nat)
    | ChainDeleted(chainId: nat)

  /** A drawn prefix is hex and a drawn secret is not empty. */
  predicate Drawn(idPrefix: string, secret: string) {
    HyphenFree(idPrefix) && idPrefix != "" && secret != ""
  }

  predicate WellDrawn(command: Command) {
    command.CreateCommand? || command.RotateCommand? ==> Drawn(command.idPrefix, command.secret)
  }

  lemma StoredFits(crypto: Crypto, token: Token, key: string)
    requires Sound(crypto) && RowFits(crypto, token, key)
    ensures RowFits(crypto, token.(secretBox := Some(crypto.encrypt(key, token.idPrefix))), key)
  {
  }

  // --- What the commands do ------------------------------------------------------

  /** All a token table knows, with the keys that were issued for its rows. */
  datatype Ledger = Ledger(tokens: seq<Token>, limits: map<nat, Limits.ValidLimit>, chains: set<nat>,
                           keys: seq<string>)

  ghost predicate ValidLedger(crypto: Crypto, l: Ledger) {
    && ValidRows(crypto, l.tokens, l.keys) && (forall id | id in l.limits :: id < |l.tokens|)
    && PinsExist(l.tokens, l.chains)
  }

  /** Every token's assigned chain exists. */
  predicate PinsExist(tokens: seq<Token>, chains: set<nat>) {
    forall i | 0 <= i < |tokens| && tokens[i].chain.Some? :: tokens[i].chain.value in chains
  }

  function WithStatus(tokens: seq<Token>, id: nat, status: Status): seq<Token>
    requires id < |tokens|
  {
    tokens[id := tokens[id].(status := status)]
  }

  /** The rows once a chain is gone: whoever was assigned to it is assigned to none. */
  function Unassigned(tokens: seq<Token>, chainId: nat): seq<Token> {
    Map(tokens, (t: Token) => if t.chain == Some(chainId) then t.(chain := None) else t)
  }

  function WithIssued(crypto: Crypto, l: Ledger, name: string, limit: Option<Limits.ValidLimit>, chain: Option<nat>,
                      idPrefix: string, secret: string): Ledger {
    l.(tokens := l.tokens + [NewRow(crypto, name, chain, idPrefix, secret)],
       keys := l.keys + [FormatToken(idPrefix, secret)],
       limits := if limit.Some? then l.limits[|l.tokens| := limit.value] else l.limits)
  }

  predicate MayRotate(l: Ledger, id: nat, idPrefix: string) {
    id < |l.tokens| && !l.tokens[id].status.Revoked? && FindPrefix(l.tokens, idPrefix) == |l.tokens|
  }

  /** What a command does to the ledger. */
  function After(crypto: Crypto, l: Ledger, c: Command): (r: Ledger)
    requires |l.keys| == |l.tokens|
    ensures |r.keys| == |r.tokens|
  {
    match c
    case CreateCommand(name, limit, chain, idPrefix, secret) =>
      if (chain.Some? && chain.value !in l.chains) || FindPrefix(l.tokens, idPrefix) < |l.tokens| then l
      else WithIssued(crypto, l, name, limit, chain, idPrefix, secret)
    case EnableCommand(id, enabled) =>
      if id < |l.tokens| && !l.tokens[id].status.Revoked? then
        l.(tokens := WithStatus(l.tokens, id, if enabled then Active else Disabled))
      else l
    case RevokeCommand(id) => if id < |l.tokens| then l.(tokens := WithStatus(l.tokens, id, Revoked)) else l
    case RotateCommand(id, idPrefix, secret) =>
      if !MayRotate(l, id, idPrefix) then l
      else
        var t := l.tokens[id];
        var limit := if id in l.limits then Some(l.limits[id]) else None;
        WithIssued(crypto, l.(tokens := WithStatus(l.tokens, id, Revoked)), t.name, limit, t.chain, idPrefix, secret)
    case StoreCommand(id, presentable) =>
      if id < |l.tokens| && !l.tokens[id].status.Revoked? && l.keys[id] == presentable then
        l.(tokens := l.tokens[id := l.tokens[id].(secretBox :=
                                                    Some(crypto.encrypt(presentable, l.tokens[id].idPrefix)))])
      else l
    case ChainCreated(chainId) => l.(chains := l.chains + {chainId})
    case ChainDeleted(chainId) => l.(tokens := Unassigned(l.tokens, chainId), chains := l.chains - {chainId})
  }

  /** The ledger after a run of commands. */
  function Replay(crypto: Crypto, l: Ledger, commands: seq<Command>): (r: Ledger)
    requires |l.keys| == |l.tokens|
    ensures |r.keys| == |r.tokens|
  {
    if commands == [] then l
    else After(crypto, Replay(crypto, l, commands[..|commands| - 1]), commands[|commands| - 1])
  }

  /** Rows are only added; a row's prefix and key never change, and revoked is forever. */
  ghost predicate Extends(was: Ledger, later: Ledger) {
    && |was.tokens| == |was.keys| <= |later.tokens| == |later.keys|
    && forall i | 0 <= i < |was.tokens| ::
         && later.keys[i] == was.keys[i] && later.tokens[i].idPrefix == was.tokens[i].idPrefix
         && (was.tokens[i].status.Revoked? ==> later.tokens[i].status.Revoked?)
  }

  lemma StatusBeforeSnoc(tokens: seq<Token>, row: Token, id: nat, status: Status)
    requires id < |tokens|
    ensures WithStatus(tokens + [row], id, status) == WithStatus(tokens, id, status) + [row]
  {
  }

  lemma ExtendsFurther(a: Ledger, b: Ledger, c: Ledger)
    requires Extends(a, b) && Extends(b, c)
    ensures Extends(a, c)
  {
  }

  lemma AfterExtends(crypto: Crypto, l: Ledger, c: Command)
    requires |l.keys| == |l.tokens|
    ensures Extends(l, After(crypto, l, c))
  {
    hide NewRow, FormatToken, FindPrefix;
  }

  lemma {:induction false} ReplayExtends(crypto: Crypto, l: Ledger, commands: seq<Command>, n: nat, m: nat)
    requires |l.keys| == |l.tokens| && n <= m <= |commands|
    ensures Extends(Replay(crypto, l, commands[..n]), Replay(crypto, l, commands[..m]))
    decreases m
  {
    hide After;
    if n < m {
      ReplayExtends(crypto, l, commands, n, m - 1);
      ReplaySnoc(crypto, l, commands, m - 1);
      AfterExtends(crypto, Replay(crypto, l, commands[..m - 1]), commands[m - 1]);
    }
  }

  lemma ReplaySnoc(crypto: Crypto, l: Ledger, commands: seq<Command>, n: nat)
    requires |l.keys| == |l.tokens| && n < |commands|
    ensures Replay(crypto, l, commands[..n + 1]) == After(crypto, Replay(crypto, l, commands[..n]), commands[n])
  {
    assert commands[..n + 1][..n] == commands[..n];
  }

  /** A token revoked or rotated by any command of a run is revoked at its end. */
  lemma RevokedForGood(crypto: Crypto, l: Ledger, commands: seq<Command>, n: nat, id: nat)
    requires |l.keys| == |l.tokens| && n < |commands|
    requires var before := Replay(crypto, l, commands[..n]);
             && id < |before.tokens|
             && (commands[n] == RevokeCommand(id)
                 || (commands[n].RotateCommand? && commands[n].id == id && MayRotate(before, id, commands[n].idPrefix)))
    ensures var end := Replay(crypto, l, commands); id < |end.tokens| && end.tokens[id].status.Revoked?
  {
    ReplaySnoc(crypto, l, commands, n);
    ReplayExtends(crypto, l, commands, n + 1, |commands|);
    assert commands[..|commands|] == commands;
    hide Replay, MayRotate, FormatToken, NewRow;
  }

  /** The command drew this key. */
  predicate Draws(c: Command, key: string) {
    (c.CreateCommand? || c.RotateCommand?) && key == FormatToken(c.idPrefix, c.secret)
  }

  /** Every key of a run's end was there at its start or was drawn by one of its commands. */
  lemma {:induction false} KeysAreDrawn(crypto: Crypto, l: Ledger, commands: seq<Command>, id: nat)
    requires |l.keys| == |l.tokens| && id < |Replay(crypto, l, commands).keys|
    ensures var key := Replay(crypto, l, commands).keys[id];
            if id < |l.keys| then key == l.keys[id] else exists c | c in commands :: Draws(c, key)
  {
    if commands != [] {
      var n := |commands| - 1;
      var before := Replay(crypto, l, commands[..n]);
      AfterKeys(crypto, before, commands[n]);
      hide After, Draws;
      if id < |before.keys| {
        KeysAreDrawn(crypto, l, commands[..n], id);
      } else {
        assert commands[n] in commands;
        ReplayExtends(crypto, l, commands, 0, n);
        assert commands[..0] == [];
      }
    }
  }

  /** A command adds no key or the one it drew. */
  lemma AfterKeys(crypto: Crypto, l: Ledger, c: Command)
    requires |l.keys| == |l.tokens|
    ensures var after := After(crypto, l, c).keys;
            after == l.keys || (|after| == |l.keys| + 1 && after[..|l.keys|] == l.keys && Draws(c, after[|l.keys|]))
  {
    hide NewRow, FormatToken, FindPrefix;
  }

  lemma UnassignedValid(crypto: Crypto, tokens: seq<Token>, keys: seq<string>, chainId: nat)
    requires ValidRows(crypto, tokens, keys)
    ensures ValidRows(crypto, Unassigned(tokens, chainId), keys)
  {
    forall i | 0 <= i < |tokens|
      ensures RowFits(crypto, Unassigned(tokens, chainId)[i], keys[i])
    {
      assert RowFits(crypto, tokens[i], keys[i]);
    }
    hide RowFits;
  }

  class TokenTable {
    const crypto: Crypto
    var tokens: seq<Token>
    var limits: map<nat, Limits.ValidLimit>
    var chains: set<nat>
    ghost var keys: seq<string>

    ghost predicate Valid()
      reads this
    {
      ValidLedger(crypto, State())
    }

    ghost function State(): Ledger
      reads this
    {
      Ledger(tokens, limits, chains, keys)
    }

    /** Start from rows issued earlier, some without an encrypted copy of their key. */
    constructor (crypto: Crypto, rows: seq<Token>, chains: set<nat>, ghost keys: seq<string>)
      requires ValidRows(crypto, rows, keys) && PinsExist(rows, chains)
      ensures Valid() && this.crypto == crypto && State() == Ledger(rows, map[], chains, keys)
    {
      this.crypto := crypto;
      this.tokens := rows;
      this.limits := map[];
      this.chains := chains;
      this.keys := keys;
    }

    /** No row or key was lost and nothing revoked came back. */
    twostate predicate Kept()
      reads this
    {
      Extends(old(State()), State())
    }

    method AddRow(token: Token, ghost key: string)
      requires Valid() && RowFits(crypto, token, key) && FindPrefix(tokens, token.idPrefix) == |tokens|
      requires token.chain.Some? ==> token.chain.value in chains
      modifies this`tokens, this`keys
      ensures Valid() && Kept()
      ensures tokens == old(tokens) + [token] && keys == old(keys) + [key]
    {
      AddedRowValid(crypto, tokens, keys, token, key);
      tokens := tokens + [token];
      keys := keys + [key];
    }

    method Create(name: string, limit: Option<Limits.ValidLimit>, chain: Option<nat>, idPrefix: string, secret: string)
      returns (issued: Result<Issued, TokenError>)
      requires Valid() && Drawn(idPrefix, secret)
      modifies this`tokens, this`limits, this`keys
      ensures Valid() && Kept()
      ensures issued.Err?
              <==> (chain.Some? && chain.value !in chains) || FindPrefix(old(tokens), idPrefix) < |old(tokens)|
      ensures issued.Err? ==> tokens == old(tokens) && limits == old(limits) && keys == old(keys)
      ensures issued.Ok? ==>
        && issued.value == Issued(|old(tokens)|, idPrefix, name, Active, chain, FormatToken(idPrefix, secret))
        && tokens == old(tokens) + [NewRow(crypto, name, chain, idPrefix, secret)]
        && keys == old(keys) + [issued.value.secret]
        && limits == if limit.Some? then old(limits)[|old(tokens)| := limit.value] else old(limits)
      ensures issued.Ok? ==>
        Issues(crypto, tokens[|old(tokens)|], name, chain, idPrefix, "gz-" + idPrefix + "-" + secret)
        && issued.value.secret == "gz-" + idPrefix + "-" + secret
    {
      if chain.Some? && chain.value !in chains {
        return Err(NotFound);
      }
      if FindPrefix(tokens, idPrefix) < |tokens| {
        return Err(PrefixInUse);
      }
      NewRowIssues(crypto, name, chain, idPrefix, secret);
      KeyText(idPrefix, secret);
      hide Issues, ValidRows, FormatToken, NewRow;
      var id := |tokens|;
      Issue(name, chain, idPrefix, secret);
      if limit.Some? {
        limits := limits[id := limit.value];
      }
      issued := Ok(Issued(id, idPrefix, name, Active, chain, FormatToken(idPrefix, secret)));
    }

    method Issue(name: string, chain: Option<nat>, idPrefix: string, secret: string)
      requires Valid() && Drawn(idPrefix, secret) && FindPrefix(tokens, idPrefix) == |tokens|
      requires chain.Some? ==> chain.value in chains
      modifies this`tokens, this`keys
      ensures Valid() && Kept()
      ensures tokens == old(tokens) + [NewRow(crypto, name, chain, idPrefix, secret)]
      ensures keys == old(keys) + [FormatToken(idPrefix, secret)]
    {
      FreshKeyFits(crypto, name, chain, idPrefix, secret);
      var token := NewRow(crypto, name, chain, idPrefix, secret);
      hide RowFits, FormatToken, NewRow;
      AddRow(token, FormatToken(idPrefix, secret));
    }

    /** Authentication accepts a text exactly when it is the key issued for a token that is
        active now, and names that token and its chain. */
    method Verify(presented: string) returns (auth: Option<AuthResult>)
      requires Valid()
      ensures forall id | 0 <= id < |tokens| && keys[id] == presented && tokens[id].status.Active? ::
                auth == Some(AuthResult(id, tokens[id].chain))
      ensures auth.Some? ==> auth.value.tokenId < |tokens| && keys[auth.value.tokenId] == presented
                             && tokens[auth.value.tokenId].status.Active?
    {
      assert |keys| == |tokens|;
      hide ParseToken, FindPrefix, ValidRows;
      forall id | 0 <= id < |tokens|
        ensures keys[id] == presented
           <==> Opens(crypto, tokens[id], presented) && FindPrefix(tokens, ParseToken(presented).value.0) == id
      {
        LookupFinds(crypto, tokens, keys, presented, id);
      }
      var parsed := ParseToken(presented);
      if parsed.None? {
        return None;
      }
      var i := FindPrefix(tokens, parsed.value.0);
      if i == |tokens| || crypto.digest(parsed.value.1) != tokens[i].tokenHash || tokens[i].status != Active {
        return None;
      }
      auth := Some(AuthResult(i, tokens[i].chain));
    }

    method SetStatus(id: nat, status: Status)
      requires Valid() && id < |tokens| && (tokens[id].status.Revoked? ==> status.Revoked?)
      modifies this`tokens
      ensures Valid() && Kept()
      ensures tokens == WithStatus(old(tokens), id, status)
    {
      assert RowFits(crypto, tokens[id], keys[id]);
      tokens := tokens[id := tokens[id].(status := status)];
    }

    /** Enabling and disabling; a revoked token stays as it is. */
    method SetEnabled(id: nat, enabled: bool) returns (found: bool)
      requires Valid()
      modifies this`tokens
      ensures Valid() && Kept()
      ensures found == (id < |old(tokens)|)
      ensures !found || old(tokens)[id].status.Revoked? ==> tokens == old(tokens)
      ensures found && !old(tokens)[id].status.Revoked? ==>
        tokens == old(tokens)[id := old(tokens)[id].(status := if enabled then Active else Disabled)]
    {
      if id >= |tokens| {
        return false;
      }
      if tokens[id].status != Revoked {
        SetStatus(id, if enabled then Active else Disabled);
      }
      found := true;
    }

    method Revoke(id: nat) returns (found: bool)
      requires Valid()
      modifies this`tokens
      ensures Valid() && Kept()
      ensures found == (id < |old(tokens)|)
      ensures tokens == if found then old(tokens)[id := old(tokens)[id].(status := Revoked)] else old(tokens)
    {
      if id >= |tokens| {
        return false;
      }
      SetStatus(id, Revoked);
      found := true;
    }

    /** Issue a replacement with the same name, chain and limit, and revoke the old token. */
    method Rotate(id: nat, idPrefix: string, secret: string) returns (issued: Result<Issued, TokenError>)
      requires Valid() && Drawn(idPrefix, secret)
      modifies this`tokens, this`limits, this`keys
      ensures Valid() && Kept()
      ensures issued.Err? <==>
        || id >= |old(tokens)| || old(tokens)[id].status.Revoked?
        || FindPrefix(old(tokens), idPrefix) < |old(tokens)|
      ensures issued.Err? ==> tokens == old(tokens) && limits == old(limits) && keys == old(keys)
      ensures issued.Ok? ==>
        var n := |old(tokens)|;
        var row := old(tokens)[id];
        && tokens == WithStatus(old(tokens), id, Revoked) + [NewRow(crypto, row.name, row.chain, idPrefix, secret)]
        && keys == old(keys) + [issued.value.secret]
        && issued.value == Issued(n, idPrefix, row.name, Active, row.chain, FormatToken(idPrefix, secret))
        && limits == if id in old(limits) then old(limits)[n := old(limits)[id]] else old(limits)
      ensures issued.Ok? ==>
        Issues(crypto, tokens[|old(tokens)|], old(tokens)[id].name, old(tokens)[id].chain, idPrefix,
               "gz-" + idPrefix + "-" + secret)
        && issued.value.secret == "gz-" + idPrefix + "-" + secret
    {
      if id >= |tokens| {
        return Err(NotFound);
      }
      var token := tokens[id];
      if token.status == Revoked {
        return Err(AlreadyRevoked);
      }
      assert token.chain.Some? ==> token.chain.value in chains;
      ghost var before := State();
      hide ValidLedger, NewRow, FormatToken, RowFits, FindPrefix, Drawn, Extends, WithStatus, Issues;
      var limit := if id in limits then Some(limits[id]) else None;
      issued := Create(token.name, limit, token.chain, idPrefix, secret);
      if issued.Ok? {
        ghost var added := State();
        StatusBeforeSnoc(before.tokens, added.tokens[|before.tokens|], id, Revoked);
        SetStatus(id, Revoked);
        ExtendsFurther(before, added, State());
      }
    }

    /** Reveal the key of a token. It succeeds exactly for a token that is not revoked and
        carries an encrypted copy, and then returns the key that was issued. */
    method Reveal(id: nat) returns (issued: Result<Issued, TokenError>)
      requires Valid()
      ensures issued.Ok? <==> id < |tokens| && !tokens[id].status.Revoked? && tokens[id].secretBox.Some?
      ensures issued.Ok? ==>
        issued.value == Issued(id, tokens[id].idPrefix, tokens[id].name, tokens[id].status, tokens[id].chain, keys[id])
    {
      if id >= |tokens| {
        return Err(NotFound);
      }
      var token := tokens[id];
      if token.status == Revoked {
        return Err(AlreadyRevoked);
      }
      if token.secretBox.None? {
        return Err(NotRevealable);
      }
      assert RowFits(crypto, token, keys[id]);
      var presentable := crypto.decrypt(token.secretBox.value, token.idPrefix).value;
      var parsed := ParseToken(presentable);
      if parsed.None? {
        return Err(Malformed);
      }
      if parsed.value.0 != token.idPrefix || crypto.digest(parsed.value.1) != token.tokenHash {
        return Err(Mismatch);
      }
      issued := Ok(Issued(id, token.idPrefix, token.name, token.status, token.chain, presentable));
    }

    method SetBox(id: nat, secretBox: Option<string>)
      requires Valid() && id < |tokens| && RowFits(crypto, tokens[id].(secretBox := secretBox), keys[id])
      modifies this`tokens
      ensures Valid() && Kept()
      ensures tokens == old(tokens)[id := old(tokens)[id].(secretBox := secretBox)]
    {
      tokens := tokens[id := tokens[id].(secretBox := secretBox)];
      hide RowFits, Sound;
    }

    /** Keep an encrypted copy of a key the operator still has. It succeeds exactly for the
        key that was issued for a token that is not revoked. */
    method StoreExisting(id: nat, presentable: string) returns (stored: Result<Issued, TokenError>)
      requires Valid()
      modifies this`tokens
      ensures Valid() && Kept()
      ensures stored.Ok? <==> id < |old(tokens)| && !old(tokens)[id].status.Revoked? && keys[id] == presentable
      ensures stored.Err? ==> tokens == old(tokens)
      ensures stored.Ok? ==>
        var row := old(tokens)[id];
        tokens == old(tokens)[id := row.(secretBox := Some(crypto.encrypt(presentable, row.idPrefix)))]
    {
      if id >= |tokens| {
        return Err(NotFound);
      }
      var token := tokens[id];
      if token.status == Revoked {
        return Err(AlreadyRevoked);
      }
      assert RowFits(crypto, token, keys[id]);
      var parsed := ParseToken(presentable);
      if parsed.None? {
        return Err(Malformed);
      }
      if parsed.value.0 != token.idPrefix || crypto.digest(parsed.value.1) != token.tokenHash {
        return Err(Mismatch);
      }
      OpensOneKey(crypto, token, presentable, keys[id]);
      StoredFits(crypto, token, presentable);
      hide ParseToken, ValidRows, RowFits;
      SetBox(id, Some(crypto.encrypt(presentable, token.idPrefix)));
      stored := Ok(Issued(id, token.idPrefix, token.name, token.status, token.chain, presentable));
    }

    /** A chain was created: tokens may be assigned to it. */
    method AddChain(chainId: nat)
      requires Valid()
      modifies this`chains
      ensures Valid() && chains == old(chains) + {chainId}
    {
      chains := chains + {chainId};
    }

    /** A chain was deleted: the foreign key of the tokens assigned to it becomes NULL. */
    method ForgetChain(chainId: nat)
      requires Valid()
      modifies this`tokens, this`chains
      ensures Valid() && Kept()
      ensures tokens == Unassigned(old(tokens), chainId) && chains == old(chains) - {chainId}
      ensures |tokens| == |old(tokens)|
      ensures forall i | 0 <= i < |tokens| :: tokens[i].(chain := None) == old(tokens)[i].(chain := None)
                && tokens[i].chain == if old(tokens)[i].chain == Some(chainId) then None else old(tokens)[i].chain
    {
      UnassignedValid(crypto, tokens, keys, chainId);
      hide ValidRows;
      tokens := Unassigned(tokens, chainId);
      chains := chains - {chainId};
    }

    /** Every command does to the ledger what `After` says. */
    method Apply(command: Command)
      requires Valid() && WellDrawn(command)
      modifies this`tokens, this`limits, this`keys, this`chains
      ensures Valid() && Kept() && State() == After(crypto, old(State()), command)
    {
      assert |State().keys| == |State().tokens|;
      hide ValidLedger, NewRow, FormatToken, RowFits, Unassigned, Extends, FindPrefix, WithStatus, Drawn;
      AfterExtends(crypto, State(), command);
      if command.CreateCommand? || command.RotateCommand? {
        ApplyIssue(command);
      } else {
        ApplyChange(command);
      }
    }

    method ApplyIssue(command: Command)
      requires Valid() && WellDrawn(command) && (command.CreateCommand? || command.RotateCommand?)
      modifies this`tokens, this`limits, this`keys
      ensures Valid() && |old(keys)| == |old(tokens)| && State() == After(crypto, old(State()), command)
    {
      assert |State().keys| == |State().tokens|;
      hide ValidLedger, NewRow, FormatToken, Extends, FindPrefix, WithStatus, Drawn;
      match command {
        case CreateCommand(name, limit, chain, idPrefix, secret) =>
          var _ := Create(name, limit, chain, idPrefix, secret);
        case RotateCommand(id, idPrefix, secret) => var _ := Rotate(id, idPrefix, secret);
      }
    }

    method ApplyChange(command: Command)
      requires Valid() && !command.CreateCommand? && !command.RotateCommand?
      modifies this`tokens, this`chains
      ensures Valid() && |old(keys)| == |old(tokens)| && State() == After(crypto, old(State()), command)
    {
      assert |State().keys| == |State().tokens|;
      hide ValidLedger, Extends, Unassigned;
      match command {
        case EnableCommand(id, enabled) => var _ := SetEnabled(id, enabled);
        case RevokeCommand(id) => var _ := Revoke(id);
        case StoreCommand(id, presentable) => var _ := StoreExisting(id, presentable);
        case ChainCreated(chainId) => AddChain(chainId);
        case ChainDeleted(chainId) => ForgetChain(chainId);
      }
    }

    /** Every run of commands leaves exactly the ledger those commands leave: no key or prefix
        ever changes, and no revoked token comes back. */
    method Run(commands: seq<Command>)
      requires Valid() && forall c | c in commands :: WellDrawn(c)
      modifies this`tokens, this`limits, this`keys, this`chains
      ensures Valid() && Kept() && State() == Replay(crypto, old(State()), commands)
    {
      ghost var start := State();
      assert |start.keys| == |start.tokens|;
      hide After, ValidLedger;
      for i := 0 to |commands|
        invariant Valid() && State() == Replay(crypto, start, commands[..i])
      {
        ReplaySnoc(crypto, start, commands, i);
        Apply(commands[i]);
      }
      assert commands[..|commands|] == commands && commands[..0] == [];
      ReplayExtends(crypto, start, commands, 0, |commands|);
    }
  }

  /** No active token holds the key, so verifying it fails. */
  ghost predicate NoLongerOpens(table: TokenTable, key: string)
    reads table
  {
    |table.keys| == |table.tokens|
    && forall i | 0 <= i < |table.keys| && table.keys[i] == key :: table.tokens[i].status != Active
  }

  lemma RevokedOpensNothing(table: TokenTable, id: nat)
    requires table.Valid() && id < |table.tokens| && table.tokens[id].status == Revoked
    ensures id < |table.keys| && NoLongerOpens(table, table.keys[id])
  {
    forall i | 0 <= i < |table.keys| && table.keys[i] == table.keys[id]
      ensures i == id
    {
      LookupFinds(table.crypto, table.tokens, table.keys, table.keys[id], i);
      LookupFinds(table.crypto, table.tokens, table.keys, table.keys[id], id);
    }
  }

  /** A newly issued key works at once: it authenticates as its token, with the chain the token
      was given, and revealing the token returns it. */
  method IssueAndUse(table: TokenTable, name: string, limit: Option<Limits.ValidLimit>, chain: Option<nat>,
                     idPrefix: string, secret: string)
    returns (issued: Result<Issued, TokenError>, auth: Option<AuthResult>, revealed: Result<Issued, TokenError>)
    requires table.Valid() && Drawn(idPrefix, secret)
    modifies table`tokens, table`limits, table`keys
    ensures table.Valid()
    ensures issued.Ok? ==> auth == Some(AuthResult(issued.value.tokenId, chain)) && revealed == issued
  {
    assert |table.keys| == |table.tokens|;
    hide ValidLedger, NewRow, FormatToken, FindPrefix, Drawn, Extends;
    auth, revealed := None, Err(NotFound);
    issued := table.Create(name, limit, chain, idPrefix, secret);
    if issued.Ok? {
      assert table.keys[issued.value.tokenId] == issued.value.secret;
      auth := table.Verify(issued.value.secret);
      revealed := table.Reveal(issued.value.tokenId);
    }
  }

  /** A rotated key's replacement works at once, as a token of the same chain, and the old key
      works no more. */
  method RotateAndUse(table: TokenTable, id: nat, idPrefix: string, secret: string, ghost key: string)
    returns (issued: Result<Issued, TokenError>, auth: Option<AuthResult>, revealed: Result<Issued, TokenError>)
    requires table.Valid() && Drawn(idPrefix, secret) && (id < |table.keys| ==> key == table.keys[id])
    modifies table`tokens, table`limits, table`keys
    ensures table.Valid()
    ensures issued.Ok? ==>
      && id < |old(table.tokens)| && auth == Some(AuthResult(issued.value.tokenId, old(table.tokens)[id].chain))
      && revealed == issued && NoLongerOpens(table, key)
  {
    assert |table.keys| == |table.tokens|;
    hide ValidLedger, NewRow, FormatToken, FindPrefix, Drawn, Extends;
    auth, revealed := None, Err(NotFound);
    issued := table.Rotate(id, idPrefix, secret);
    if issued.Ok? {
      assert table.keys[issued.value.tokenId] == issued.value.secret;
      auth := table.Verify(issued.value.secret);
      revealed := table.Reveal(issued.value.tokenId);
      RevokedOpensNothing(table, id);
    }
  }
}
