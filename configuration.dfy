/** The argument checks of the repository constructors. */
module Configuration {
  import opened Results

  /** `RepositoryConfiguration` (and `MongoDbConfigurationValues`): server, database and collection names. */
  datatype RepositoryConfiguration = RepositoryConfiguration(
    mongoServer: Option<string>,
    mongoDatabase: Option<string>,
    mongoCollection: Option<string>)

  /** The argument a constructor rejects: an `ArgumentNullException` or an `ArgumentException`. */
  datatype ArgumentError = MapperNull | ConfigurationNull | ServerNullOrEmpty | DatabaseNullOrEmpty | CollectionNullOrEmpty

  /** The configuration is present and names a server, a database and a collection. */
  predicate Complete(config: RepositoryConfiguration)
  {
    !IsNullOrEmpty(config.mongoServer) && !IsNullOrEmpty(config.mongoDatabase) && !IsNullOrEmpty(config.mongoCollection)
  }

  /**
   * The configuration checks, in the constructors' order: the configuration
   * itself, then server, database and collection.
   */
  function CheckConfiguration(config: Option<RepositoryConfiguration>): (r: Option<ArgumentError>)
    ensures r == None <==> config.Some? && Complete(config.value)
    ensures r == Some(ConfigurationNull) <==> config == None
    ensures r == Some(ServerNullOrEmpty) <==> config.Some? && IsNullOrEmpty(config.value.mongoServer)
    ensures r == Some(DatabaseNullOrEmpty) <==>
      config.Some? && !IsNullOrEmpty(config.value.mongoServer) && IsNullOrEmpty(config.value.mongoDatabase)
    ensures r == Some(CollectionNullOrEmpty) <==>
      config.Some? && !IsNullOrEmpty(config.value.mongoServer) && !IsNullOrEmpty(config.value.mongoDatabase)
      && IsNullOrEmpty(config.value.mongoCollection)
    ensures r != Some(MapperNull)
  {
    if config == None then Some(ConfigurationNull)
    else if IsNullOrEmpty(config.value.mongoServer) then Some(ServerNullOrEmpty)
    else if IsNullOrEmpty(config.value.mongoDatabase) then Some(DatabaseNullOrEmpty)
    else if IsNullOrEmpty(config.value.mongoCollection) then Some(CollectionNullOrEmpty)
    else None
  }

  /** The checks of the repositories that take an `IMapper`: the mapper comes first. */
  function CheckArguments(mapperGiven: bool, config: Option<RepositoryConfiguration>): (r: Option<ArgumentError>)
    ensures r == None <==> mapperGiven && config.Some? && Complete(config.value)
    ensures r == Some(MapperNull) <==> !mapperGiven
    ensures mapperGiven ==> r == CheckConfiguration(config)
  {
    if !mapperGiven then Some(MapperNull) else CheckConfiguration(config)
  }
}
