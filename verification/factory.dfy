/**
 * Backend selection (`create_vector_store`) and the configuration report
 * (`get_vector_store_info`). The Qdrant backend is built through
 * `QdrantStore.Open`; the Chroma backend is described by its arguments, and
 * whether its constructor raises is an input.
 */
module VectorStoreFactory {
  import opened Wrappers
  import Text
  import QdrantStore

  /** The configuration values the factory reads. */
  datatype Settings = Settings(
    vectorStoreType: string,
    collectionName: string,
    qdrantUrl: Option<string>,
    qdrantApiKey: Option<string>,
    vectorDbPath: string)

  /** What the factory hands back. */
  datatype Backend =
    | Qdrant(store: QdrantStore.Store)
    | Chroma(collectionName: string, dbPath: string)

  /**
   * What the constructors see of the outside world: for Qdrant the
   * environment and the server's replies, for Chroma whether `VectorStore(...)`
   * raises.
   */
  datatype Connection = Connection(
    env: QdrantStore.Environment,
    listing: Result<seq<string>, string>,
    create: Outcome<string>,
    chroma: Outcome<string>)

  /** An exception out of the factory: one a constructor raised, or the factory's own `ValueError`. */
  datatype Error =
    | QdrantError(error: QdrantStore.Error)
    | ChromaError(message: string)
    | UnsupportedType(message: string)

  const UnsupportedPrefix := "Unsupported vector store type: "
  const SupportedLead := ". Supported types: "

  function UnsupportedMessage(storeType: string): string {
    UnsupportedPrefix + storeType + SupportedLead + "'chromadb'" + ", " + "'qdrant'"
  }

  /** The Qdrant constructor, as the factory calls it. */
  function OpenQdrant(cfg: Settings, name: string, conn: Connection): Result<QdrantStore.Store, QdrantStore.Error> {
    QdrantStore.Open(name, cfg.qdrantUrl, cfg.qdrantApiKey, conn.env, conn.listing, conn.create)
  }

  /**
   * `create_vector_store`: a missing collection name defaults to the
   * configured one; the lower-cased type selects the backend, and any other
   * type is a `ValueError` naming it, with no backend constructed.
   */
  function CreateVectorStore(cfg: Settings, collectionName: Option<string>, conn: Connection): (r: Result<Backend, Error>)
    ensures var name := collectionName.GetOr(cfg.collectionName);
      var t := Text.Lower(cfg.vectorStoreType);
      && (t == "qdrant" ==>
            && (r.Success? <==> OpenQdrant(cfg, name, conn).Success?)
            && (r.Success? ==> r.value == Qdrant(OpenQdrant(cfg, name, conn).value))
            && (r.Failure? ==> r.error == QdrantError(OpenQdrant(cfg, name, conn).error)))
      && (t == "chromadb" ==>
            && (r.Success? <==> conn.chroma.Pass?)
            && (r.Success? ==> r.value == Chroma(name, cfg.vectorDbPath))
            && (r.Failure? ==> r.error == ChromaError(conn.chroma.error)))
      && (t != "qdrant" && t != "chromadb" ==> r == Failure(UnsupportedType(UnsupportedMessage(t))))
      && (r.Success? ==> match r.value
                         case Qdrant(store) => store.collectionName == name
                         case Chroma(n, _) => n == name)
  {
    var name := collectionName.GetOr(cfg.collectionName);
    var t := Text.Lower(cfg.vectorStoreType);
    if t == "qdrant" then
      match OpenQdrant(cfg, name, conn)
      case Success(store) => Success(Qdrant(store))
      case Failure(e) => Failure(QdrantError(e))
    else if t == "chromadb" then
      match conn.chroma
      case Pass => Success(Chroma(name, cfg.vectorDbPath))
      case Fail(e) => Failure(ChromaError(e))
    else
      Failure(UnsupportedType(UnsupportedMessage(t)))
  }

  /** Two spellings of the type that differ only in ASCII case select the same backend. */
  lemma DispatchIgnoresCase(cfg: Settings, storeType: string, collectionName: Option<string>, conn: Connection)
    requires Text.Lower(storeType) == Text.Lower(cfg.vectorStoreType)
    ensures CreateVectorStore(cfg.(vectorStoreType := storeType), collectionName, conn)
         == CreateVectorStore(cfg, collectionName, conn)
  {
  }

  /** An unsupported type fails the same way whatever the server would have answered. */
  lemma UnsupportedNeedsNoServer(cfg: Settings, collectionName: Option<string>, conn: Connection, conn': Connection)
    requires Text.Lower(cfg.vectorStoreType) != "qdrant" && Text.Lower(cfg.vectorStoreType) != "chromadb"
    ensures CreateVectorStore(cfg, collectionName, conn) == CreateVectorStore(cfg, collectionName, conn')
    ensures CreateVectorStore(cfg, collectionName, conn).Failure?
  {
  }

  /** The error names the offending (lower-cased) type and both supported ones. */
  lemma UnsupportedMessageNamesTypes(storeType: string)
    ensures var m := UnsupportedMessage(storeType);
      Text.Contains(storeType, m) && Text.Contains("'chromadb'", m) && Text.Contains("'qdrant'", m)
  {
    PartsOccur(UnsupportedPrefix, storeType, SupportedLead, "'chromadb'", ", ", "'qdrant'");
  }

  lemma {:induction false} PartsOccur(p: string, t: string, lead: string, x: string, sep: string, y: string)
    ensures var m := p + t + lead + x + sep + y;
      Text.Contains(t, m) && Text.Contains(x, m) && Text.Contains(y, m)
  {
    var m := p + t + lead + x + sep + y;
    Text.OccursInMiddle(p, t, lead + x + sep + y);
    assert p + t + (lead + x + sep + y) == m;
    Text.OccursInMiddle(p + t + lead, x, sep + y);
    assert p + t + lead + x + (sep + y) == m;
    Text.OccursInMiddle(p + t + lead + x + sep, y, "");
    assert p + t + lead + x + sep + y + "" == m;
    Text.ContainsIff(t, m);
    Text.ContainsIff(x, m);
    Text.ContainsIff(y, m);
  }

  /** The dictionary `get_vector_store_info` returns. */
  datatype StoreInfo = StoreInfo(
    storeType: string,
    collectionName: string,
    qdrantUrl: Option<string>,
    chromadbPath: Option<string>)

  /**
   * `get_vector_store_info`: the configured type and collection, the Qdrant
   * URL only for the exact type "qdrant" and the database path only for the
   * exact type "chromadb"; unlike the factory, the comparison keeps case.
   */
  function GetVectorStoreInfo(cfg: Settings): (r: StoreInfo)
    ensures r.storeType == cfg.vectorStoreType && r.collectionName == cfg.collectionName
    ensures r.qdrantUrl.Some? <==> cfg.vectorStoreType == "qdrant" && cfg.qdrantUrl.Some?
    ensures r.qdrantUrl.Some? ==> r.qdrantUrl == cfg.qdrantUrl
    ensures r.chromadbPath.Some? <==> cfg.vectorStoreType == "chromadb"
    ensures r.chromadbPath.Some? ==> r.chromadbPath.value == cfg.vectorDbPath
  {
    StoreInfo(
      cfg.vectorStoreType,
      cfg.collectionName,
      if cfg.vectorStoreType == "qdrant" then cfg.qdrantUrl else None,
      if cfg.vectorStoreType == "chromadb" then Some(cfg.vectorDbPath) else None)
  }

  /** The report never names both backends' locations. */
  lemma InfoNamesAtMostOneLocation(cfg: Settings)
    ensures !(GetVectorStoreInfo(cfg).qdrantUrl.Some? && GetVectorStoreInfo(cfg).chromadbPath.Some?)
  {
  }

  /** Whenever the report names a location, the factory builds that backend or its constructor raises. */
  lemma InfoAgreesWithFactory(cfg: Settings, conn: Connection)
    ensures var info := GetVectorStoreInfo(cfg);
      var r := CreateVectorStore(cfg, None, conn);
      && (info.chromadbPath.Some? ==> r.Failure? || r.value == Chroma(cfg.collectionName, info.chromadbPath.value))
      && (info.chromadbPath.Some? && r.Failure? ==> r.error.ChromaError?)
      && (info.qdrantUrl.Some? && r.Failure? ==> r.error.QdrantError?)
      && (info.qdrantUrl.Some? ==> r.Failure? || r.value.Qdrant?)
  {
    assert Text.Lower("qdrant") == "qdrant";
    assert Text.Lower("chromadb") == "chromadb";
  }

  /**
   * The converse fails: a type written "Qdrant" makes the factory build the
   * Qdrant backend while the report shows no Qdrant URL.
   */
  lemma CapitalisedTypeHidesUrl(cfg: Settings, conn: Connection)
    requires cfg.vectorStoreType == "Qdrant"
    ensures GetVectorStoreInfo(cfg).qdrantUrl.None? && GetVectorStoreInfo(cfg).chromadbPath.None?
    ensures var r := CreateVectorStore(cfg, None, conn); r.Failure? || r.value.Qdrant?
  {
    assert Text.Lower("Qdrant") == "qdrant";
  }
}
