/** The index the lazy guard builds from a registry, the lookups over it, and the activation backstop. */
module LazyGuardBackstop {
  import opened Options
  import opened SqlText
  import opened LazyGuard
  import opened LazyGuardExact

  /** `localTable` is a read projection's own identity; it is read under no other. */
  datatype Entry = Entry(table: Ref, view: Option<Ref>, localTable: Option<Ref>, lazy_: bool)

  type Registry = map<string, Entry>

  datatype Index = Index(lazyKeys: set<string>, lazyTokens: map<string, seq<string>>,
                         allKeys: set<string>, allTokens: map<string, seq<string>>)

  /** The names a synced relation is read under. */
  function RelationsOf(e: Entry): seq<Ref> {
    if e.localTable.Some? then [e.localTable.value]
    else if e.view.Some? then [e.table, e.view.value]
    else [e.table]
  }

  method TokensForEntry(e: Entry) returns (tokens: seq<string>)
    ensures tokens == Tokens(e)
  {
    tokens := [];
    if e.localTable.Some? {
      tokens := tokens + [QuotedRef(e.localTable.value)];
    } else {
      tokens := tokens + [QuotedRef(e.table)];
      if e.view.Some? {
        tokens := tokens + [QuotedRef(e.view.value)];
      }
    }
  }

  function Tokens(e: Entry): seq<string> {
    var refs := RelationsOf(e);
    seq(|refs|, i requires 0 <= i < |refs| => QuotedRef(refs[i]))
  }

  function IndexOf(registry: Registry): Index {
    var lazy_ := set key | key in registry && registry[key].lazy_;
    Index(lazy_, map key | key in lazy_ :: Tokens(registry[key]), registry.Keys, map key | key in registry :: Tokens(registry[key]))
  }

  method BuildLazyGuardIndex(registry: Registry) returns (index: Index)
    ensures index == IndexOf(registry)
  {
    var lazyKeys, allKeys: set<string> := {}, {};
    var lazyTokens, allTokens: map<string, seq<string>> := map[], map[];
    var rest := registry.Keys;
    while rest != {}
      invariant rest <= registry.Keys && allKeys == registry.Keys - rest
      invariant lazyKeys == set key | key in allKeys && registry[key].lazy_
      invariant allTokens == map key | key in allKeys :: Tokens(registry[key])
      invariant lazyTokens == map key | key in lazyKeys :: Tokens(registry[key])
    {
      var key :| key in rest;
      rest := rest - {key};
      var tokens := TokensForEntry(registry[key]);
      allKeys := allKeys + {key};
      allTokens := allTokens[key := tokens];
      if registry[key].lazy_ {
        lazyKeys := lazyKeys + {key};
        lazyTokens := lazyTokens[key := tokens];
      }
    }
    index := Index(lazyKeys, lazyTokens, allKeys, allTokens);
  }

  predicate TokensOk(tokensOf: map<string, seq<string>>) {
    forall key, token | key in tokensOf && token in tokensOf[key] :: token != []
  }

  /** The keys one of whose tokens the scan finds. */
  function ReferencedKeys(sql: string, tokensOf: map<string, seq<string>>): set<string>
    requires TokensOk(tokensOf)
  {
    set key | key in tokensOf && exists token :: token in tokensOf[key] && Scan(sql, token, 0)
  }

  method FindReferencedKeysInSql(sql: string, tokensOf: map<string, seq<string>>) returns (found: set<string>)
    requires TokensOk(tokensOf)
    ensures found == ReferencedKeys(sql, tokensOf)
  {
    found := {};
    var rest := tokensOf.Keys;
    while rest != {}
      invariant rest <= tokensOf.Keys
      invariant forall key :: key in found <==> key in ReferencedKeys(sql, tokensOf) && key !in rest
    {
      var key :| key in rest;
      rest := rest - {key};
      var tokens, some := tokensOf[key], false;
      assert forall k | 0 <= k < |tokens| :: tokens[k] in tokens && tokens[k] != [];
      for i := 0 to |tokens|
        invariant some <==> exists k :: 0 <= k < i && Scan(sql, tokens[k], 0)
      {
        var references := SqlReferencesToken(sql, tokens[i]);
        some := some || references;
      }
      if some {
        found := found + {key};
      }
    }
  }

  /** The backstop: the lazy relations a statement reads that are not active. It throws unless there is none. */
  method AssertLazyRefsActivated(sql: string, index: Index, active: set<string>) returns (missing: set<string>)
    requires TokensOk(index.lazyTokens)
    ensures missing == ReferencedKeys(sql, index.lazyTokens) - active
  {
    var referenced := FindReferencedKeysInSql(sql, index.lazyTokens);
    missing := referenced - active;
  }

  // ---- What it comes to ----

  /** A read projection is read under its own name and no other; any other relation under its table's and its view's. */
  predicate ReadAs(e: Entry, ref: Ref) {
    if e.localTable.Some? then e.localTable == Some(ref) else ref == e.table || e.view == Some(ref)
  }

  lemma RelationsAre(e: Entry)
    ensures forall ref :: ref in RelationsOf(e) <==> ReadAs(e, ref)
  {
  }

  predicate EntryOk(e: Entry) {
    if e.localTable.Some? then RefOk(e.localTable.value) else RefOk(e.table) && (e.view.Some? ==> RefOk(e.view.value))
  }

  predicate RegistryOk(registry: Registry) {
    forall key | key in registry :: EntryOk(registry[key])
  }

  ghost predicate Reads(lexemes: seq<Lexeme>, e: Entry) {
    exists ref :: ReadAs(e, ref) && Reported(lexemes, ref)
  }

  lemma TokensAreOk(registry: Registry)
    ensures TokensOk(IndexOf(registry).lazyTokens) && TokensOk(IndexOf(registry).allTokens)
  {
  }

  lemma EntryIsRead(lexemes: seq<Lexeme>, e: Entry)
    requires Statement(lexemes) && EntryOk(e)
    ensures (exists token :: token in Tokens(e) && token != [] && Scan(Render(lexemes), token, 0)) <==> Reads(lexemes, e)
  {
    var refs := RelationsOf(e);
    RelationsAre(e);
    forall i | 0 <= i < |refs|
      ensures Tokens(e)[i] == QuotedRef(refs[i]) && Scan(Render(lexemes), Tokens(e)[i], 0) == Reported(lexemes, refs[i])
    {
      ScanIsExact(lexemes, refs[i]);
    }
    if Reads(lexemes, e) {
      var ref :| ReadAs(e, ref) && Reported(lexemes, ref);
      var i :| 0 <= i < |refs| && refs[i] == ref;
      assert Tokens(e)[i] in Tokens(e);
    }
    if token :| token in Tokens(e) && token != [] && Scan(Render(lexemes), token, 0) {
      var i :| 0 <= i < |refs| && Tokens(e)[i] == token;
      assert ReadAs(e, refs[i]) && Reported(lexemes, refs[i]);
    }
  }

  /** Both lookups: a key is found exactly when one of its relations is referred to outside alias position. */
  lemma LookupsAreExact(registry: Registry, lexemes: seq<Lexeme>, key: string)
    requires Statement(lexemes) && RegistryOk(registry)
    ensures TokensOk(IndexOf(registry).lazyTokens) && TokensOk(IndexOf(registry).allTokens)
    ensures key in ReferencedKeys(Render(lexemes), IndexOf(registry).allTokens) <==> key in registry && Reads(lexemes, registry[key])
    ensures key in ReferencedKeys(Render(lexemes), IndexOf(registry).lazyTokens) <==>
            key in registry && registry[key].lazy_ && Reads(lexemes, registry[key])
  {
    TokensAreOk(registry);
    if key in registry {
      EntryIsRead(lexemes, registry[key]);
    }
  }

  /** The statement refers to a lazy relation of the key. */
  ghost predicate RefersLazily(registry: Registry, lexemes: seq<Lexeme>, key: string) {
    key in registry && registry[key].lazy_ && exists ref :: ReadAs(registry[key], ref) && Referenced(lexemes, ref)
  }

  /** No relation is named as its schema. */
  ghost predicate NoNamesakes(registry: Registry) {
    forall key, ref | key in registry && ReadAs(registry[key], ref) && Qualified(ref) :: ref.schema.value != ref.name
  }

  lemma FindsWhatIsReferred(registry: Registry, lexemes: seq<Lexeme>, key: string)
    requires Statement(lexemes) && RegistryOk(registry) && TokensOk(IndexOf(registry).lazyTokens)
    requires AliasesAreShort(lexemes) || NoNamesakes(registry)
    ensures key in ReferencedKeys(Render(lexemes), IndexOf(registry).lazyTokens) <==> RefersLazily(registry, lexemes, key)
  {
    LookupsAreExact(registry, lexemes, key);
    if key in registry {
      forall ref | ReadAs(registry[key], ref) ensures Reported(lexemes, ref) <==> Referenced(lexemes, ref) {
        if AliasesAreShort(lexemes) { NotShadowedByAliases(lexemes, ref); } else { NotShadowed(lexemes, ref); }
      }
    }
  }

  /** The backstop never lets a statement through that refers to an inactive lazy relation, and stops no other. */
  lemma BackstopIsExact(registry: Registry, lexemes: seq<Lexeme>, active: set<string>)
    requires Statement(lexemes) && RegistryOk(registry) && (AliasesAreShort(lexemes) || NoNamesakes(registry))
    ensures TokensOk(IndexOf(registry).lazyTokens)
    ensures ReferencedKeys(Render(lexemes), IndexOf(registry).lazyTokens) - active == {} <==>
            forall key | RefersLazily(registry, lexemes, key) :: key in active
  {
    TokensAreOk(registry);
    var found := ReferencedKeys(Render(lexemes), IndexOf(registry).lazyTokens);
    forall key ensures key in found <==> RefersLazily(registry, lexemes, key) {
      FindsWhatIsReferred(registry, lexemes, key);
    }
    if found - active != {} {
      var key :| key in found - active;
      assert RefersLazily(registry, lexemes, key);
    } else {
      forall key | RefersLazily(registry, lexemes, key) ensures key in active {
        assert key in found;
        assert key !in found - active;
      }
    }
  }
}
