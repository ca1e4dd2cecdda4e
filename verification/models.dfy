/** The records the pipeline passes around: corpus data points, raw dataset
    items and the (code, embedding) pairs written to the index file. */
module Models {

  /** One record of the CodeSearchNet test split, after construction. */
  datatype DataPoint = DataPoint(
    id: nat,
    repositoryName: string,
    funcPathInRepository: string,
    funcName: string,
    wholeFuncString: string,
    language: string,
    funcCodeString: string,
    funcCodeTokens: seq<string>,
    funcDocumentationString: string,
    funcDocumentationStringTokens: seq<string>,
    splitName: string,
    funcCodeUrl: string
  )

  /** A field value of a raw dataset item, as delivered by the dataset loader.
      Only `Str` fits a string slot and only `StrList` fits a token-list slot. */
  datatype Value = Str(text: string) | StrList(items: seq<string>) | Num(n: int) | Null

  /** A raw dataset item: field name to value; any key may be missing. */
  type Item = map<string, Value>

  /** An index-file entry: the stored code, the embedding of the comment,
      and the comment that was embedded. */
  datatype Pair = Pair(codeString: string, commentEmbedding: seq<real>, commentString: string)

  /** The code-side entry of the alternative indexing revision: the embedded
      snippet and its embedding vector. */
  datatype CodePair = CodePair(codeString: string, vector: seq<real>)
}
