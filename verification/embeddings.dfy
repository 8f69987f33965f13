/** `DocumentProcessor.get_embeddings`, reduced to the shape of its result: one vector per
    text, or `None`. The vector values (random numbers in simulation, floats from the
    embedding API otherwise) are opaque. */
module Embeddings {
  import opened Common
  import Config

  /** `self.vector_dim`. */
  const Dim: nat := 1536

  type Vector = seq<real>

  /** Every vector has `Dim` components. */
  predicate HasDim(vs: seq<Vector>)
  {
    forall i :: 0 <= i < |vs| ==> |vs[i]| == Dim
  }

  /** The POST to `{base_url}/embeddings`, with the bearer key and the JSON body. */
  datatype EmbeddingRequest = EmbeddingRequest(
    url: string,
    authorization: string,
    model: string,
    input: seq<string>)

  /** What the embedding call produced: an exception anywhere in the `try` (connection
      failure, timeout, undecodable JSON, an item without `embedding`), or an HTTP status with
      the `data` list when the decoded body has one. */
  datatype EmbeddingReply =
    | EmbeddingRaised
    | EmbeddingHttp(status: int, data: Option<seq<Vector>>)

  const EmbeddingsPath: string := "/embeddings"
  const BearerPrefix: string := "Bearer "

  function EmbeddingRequestFor(config: Config.Config, texts: seq<string>): (q: EmbeddingRequest)
    ensures q.input == texts && q.model == config.embeddingModel
    ensures q.url == config.baseUrl + EmbeddingsPath
    ensures q.authorization == BearerPrefix + config.apiKey
  {
    EmbeddingRequest(config.baseUrl + EmbeddingsPath, BearerPrefix + config.apiKey,
                     config.embeddingModel, texts)
  }

  /** `get_embeddings(texts)`. `transport` stands for the HTTP call and `rand(i, j)` for
      component `j` of the `i`-th random vector of simulation mode. */
  function GetEmbeddings(config: Config.Config, texts: seq<string>,
                         transport: EmbeddingRequest -> EmbeddingReply,
                         rand: (nat, nat) -> real): (r: Option<seq<Vector>>)
    ensures config.simulationMode ==> r.Some? && |r.value| == |texts| && HasDim(r.value)
    ensures !config.simulationMode ==>
      (r.Some? <==> (var reply := transport(EmbeddingRequestFor(config, texts));
                     reply.EmbeddingHttp? && reply.status == 200 && reply.data.Some?))
    ensures !config.simulationMode && r.Some? ==>
      r == transport(EmbeddingRequestFor(config, texts)).data
  {
    if config.simulationMode then
      Some(seq(|texts|, i requires 0 <= i < |texts| => seq(Dim, j requires 0 <= j < Dim => rand(i, j))))
    else
      match transport(EmbeddingRequestFor(config, texts))
      case EmbeddingHttp(status, data) => if status == 200 then data else None
      case EmbeddingRaised => None
  }

  /** Simulation mode never calls the API. */
  lemma SimulationIgnoresTransport(config: Config.Config, texts: seq<string>,
                                   t1: EmbeddingRequest -> EmbeddingReply,
                                   t2: EmbeddingRequest -> EmbeddingReply,
                                   rand: (nat, nat) -> real)
    requires config.simulationMode
    ensures GetEmbeddings(config, texts, t1, rand) == GetEmbeddings(config, texts, t2, rand)
  {
  }

  /** The live API's vectors are passed through as they come: their number and their
      dimension are not checked against the texts. */
  lemma LiveShapeUnchecked(config: Config.Config, texts: seq<string>,
                           transport: EmbeddingRequest -> EmbeddingReply,
                           rand: (nat, nat) -> real, vs: seq<Vector>)
    requires !config.simulationMode
    requires transport(EmbeddingRequestFor(config, texts)) == EmbeddingHttp(200, Some(vs))
    ensures GetEmbeddings(config, texts, transport, rand) == Some(vs)
  {
  }
}
