/**
 * The embedding service of the text-embedding-generation sample: the same
 * checks around an IEmbeddingGenerator, which is asked for the text alone.
 */
module TextEmbeddingGeneration {
  import opened Common
  import opened Text
  import opened Chat
  import opened Embeddings

  class AzureOpenAIEmbeddingService {
    const embeddingGenerator: Collaborator<string, GenerationOutcome>
    const deploymentName: string
    const expectedDim: int

    /** What construction guarantees: a named deployment and a positive dimension. */
    predicate Valid() {
      !IsNullOrWhiteSpace(Some(deploymentName)) && expectedDim > 0
    }

    constructor (embeddingGenerator: Collaborator<string, GenerationOutcome>, deploymentName: string, expectedDim: int)
      ensures this.embeddingGenerator == embeddingGenerator
      ensures this.deploymentName == deploymentName && this.expectedDim == expectedDim
    {
      this.embeddingGenerator := embeddingGenerator;
      this.deploymentName := deploymentName;
      this.expectedDim := expectedDim;
    }

    /**
     * new AzureOpenAIEmbeddingService(embeddingGenerator, options): a null
     * generator throws an ArgumentException with an empty message and no
     * parameter name, then the options are checked.
     */
    static method Create(embeddingGenerator: Collaborator?<string, GenerationOutcome>, options: Option<OptionsAccessor>)
      returns (r: Result<AzureOpenAIEmbeddingService>)
      ensures embeddingGenerator == null ==> r == Err(Argument("", None))
      ensures embeddingGenerator != null && CheckOptions(options).Err? ==> r == Err(CheckOptions(options).error)
      ensures r.Ok? <==> embeddingGenerator != null && CheckOptions(options).Ok?
      ensures r.Ok? ==> && fresh(r.value) && r.value.Valid() && r.value.embeddingGenerator == embeddingGenerator
                        && Some(r.value.deploymentName) == CheckOptions(options).value.deploymentName
                        && r.value.expectedDim == CheckOptions(options).value.expectedDimension
    {
      if embeddingGenerator == null {
        return Err(Argument("", None));
      }
      var checked := CheckOptions(options);
      if checked.Err? {
        return Err(checked.error);
      }
      var service := new AzureOpenAIEmbeddingService(embeddingGenerator, checked.value.deploymentName.value, checked.value.expectedDimension);
      return Ok(service);
    }

    /**
     * CreateAsync: blank text is refused before the generator is asked;
     * otherwise one vector is generated for the text and checked. The
     * deployment name is not passed on.
     */
    method CreateAsync(text: Option<string>) returns (r: Result<Embedding>)
      requires Valid()
      modifies embeddingGenerator
      ensures IsNullOrWhiteSpace(text) ==>
                r == Err(Argument(TextRequired, Some("text"))) && embeddingGenerator.log == old(embeddingGenerator.log)
      ensures !IsNullOrWhiteSpace(text) ==>
                && embeddingGenerator.log == old(embeddingGenerator.log) + [text.value]
                && r == CheckedEmbedding(embeddingGenerator.reply(embeddingGenerator.log), expectedDim)
      ensures r.Ok? ==> r.value.length == expectedDim > 0
    {
      if IsNullOrWhiteSpace(text) {
        return Err(Argument(TextRequired, Some("text")));
      }
      var outcome := embeddingGenerator.Call(text.value);
      r := CheckedEmbedding(outcome, expectedDim);
    }
  }
}
