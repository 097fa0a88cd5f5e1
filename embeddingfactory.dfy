/**
  The embedding factory (app/utils/embedding_factory.py): one lazily built
  instance per embedding type, kept in a class-level dictionary.
 */
module EmbeddingFactory {
  import opened Wrappers

  datatype EmbeddingType = Clip | MultiModal

  /** A built embedding model: a `ClipEmbedding` or a `MultiModalEmbedding`. */
  class Embedding {
    const kind: EmbeddingType

    constructor(kind: EmbeddingType)
      ensures this.kind == kind
    {
      this.kind := kind;
    }
  }

  /** The `_instances` dictionary: one slot per type, `None` until first use. */
  class Factory {
    var instances: map<EmbeddingType, Option<Embedding>>

    predicate Valid()
      reads this
    {
      instances.Keys == {Clip, MultiModal}
      && forall t :: t in instances && instances[t].Some? ==> instances[t].value.kind == t
    }

    constructor()
      ensures Valid() && instances == map[Clip := None, MultiModal := None]
    {
      instances := map[Clip := None, MultiModal := None];
    }

    /** A missing type is resolved by the configuration's embedding model type. */
    static function Resolve(modelType: Option<EmbeddingType>, configured: EmbeddingType): (t: EmbeddingType)
      ensures modelType.Some? ==> t == modelType.value
      ensures modelType.None? ==> t == configured
    {
      if modelType.Some? then modelType.value else configured
    }

    /**
      `create_embedding(model_type)`: builds the resolved type's instance only
      when its slot is empty, and returns what the slot holds; the other
      slot is left as it was.
     */
    method CreateEmbedding(modelType: Option<EmbeddingType>, configured: EmbeddingType) returns (e: Embedding)
      requires Valid()
      modifies this
      ensures Valid()
      ensures var t := Resolve(modelType, configured);
              e.kind == t
              && (old(instances[t]).Some? ==> e == old(instances[t]).value && instances == old(instances))
              && (old(instances[t]).None? ==> fresh(e) && instances == old(instances)[t := Some(e)])
    {
      var t := Resolve(modelType, configured);
      if instances[t].None? {
        var built := new Embedding(t);
        instances := instances[t := Some(built)];
      }
      e := instances[t].value;
    }
  }
}
