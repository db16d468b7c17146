/**
 * The embedding service of the vector-store sample: an Azure OpenAI client
 * asked for the embedding deployment named in the options.
 */
module VectorStoresEmbedding {
  import opened Common
  import opened Text
  import opened Chat
  import opened Embeddings

  /** One GenerateEmbeddingAsync call: the deployment's embedding client and the text. */
  datatype EmbeddingRequest = EmbeddingRequest(deploymentName: string, text: string)

  class AzureOpenAIEmbeddingService {
    const client: Collaborator<EmbeddingRequest, GenerationOutcome>
    const deploymentName: string
    const expectedDim: int

    /** What construction guarantees: a named deployment and a positive dimension. */
    predicate Valid() {
      !IsNullOrWhiteSpace(Some(deploymentName)) && expectedDim > 0
    }

    constructor (client: Collaborator<EmbeddingRequest, GenerationOutcome>, deploymentName: string, expectedDim: int)
      ensures this.client == client && this.deploymentName == deploymentName && this.expectedDim == expectedDim
    {
      this.client := client;
      this.deploymentName := deploymentName;
      this.expectedDim := expectedDim;
    }

    /**
     * new AzureOpenAIEmbeddingService(client, options): a null client throws
     * ArgumentNullException, then the options are checked.
     */
    static method Create(client: Collaborator?<EmbeddingRequest, GenerationOutcome>, options: Option<OptionsAccessor>)
      returns (r: Result<AzureOpenAIEmbeddingService>)
      ensures client == null ==> r == Err(ArgumentNull("client", None))
      ensures client != null && CheckOptions(options).Err? ==> r == Err(CheckOptions(options).error)
      ensures r.Ok? <==> client != null && CheckOptions(options).Ok?
      ensures r.Ok? ==> && fresh(r.value) && r.value.Valid() && r.value.client == client
                        && Some(r.value.deploymentName) == CheckOptions(options).value.deploymentName
                        && r.value.expectedDim == CheckOptions(options).value.expectedDimension
    {
      if client == null {
        return Err(ArgumentNull("client", None));
      }
      var checked := CheckOptions(options);
      if checked.Err? {
        return Err(checked.error);
      }
      var service := new AzureOpenAIEmbeddingService(client, checked.value.deploymentName.value, checked.value.expectedDimension);
      return Ok(service);
    }

    /**
     * CreateAsync: blank text is refused before the client is asked;
     * otherwise the deployment's embedding is requested once and checked.
     */
    method CreateAsync(text: Option<string>) returns (r: Result<Embedding>)
      requires Valid()
      modifies client
      ensures IsNullOrWhiteSpace(text) ==> r == Err(Argument(TextRequired, Some("text"))) && client.log == old(client.log)
      ensures !IsNullOrWhiteSpace(text) ==>
                && client.log == old(client.log) + [EmbeddingRequest(deploymentName, text.value)]
                && r == CheckedEmbedding(client.reply(client.log), expectedDim)
      ensures r.Ok? ==> r.value.length == expectedDim > 0
    {
      if IsNullOrWhiteSpace(text) {
        return Err(Argument(TextRequired, Some("text")));
      }
      var outcome := client.Call(EmbeddingRequest(deploymentName, text.value));
      r := CheckedEmbedding(outcome, expectedDim);
    }
  }
}
