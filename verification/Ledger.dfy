/** Bookkeeping of a bucket whose objects belong to uploads: each upload may own a chunk
    object and an index file, no two uploads own the same key, and nothing else is there. */
module Ledger {
  import opened Seqs
  import opened Lines

  /** The two objects an upload may write. */
  datatype Files = Files(chunkKey: string, chunkData: bytes, indexKey: string, indexData: Option<bytes>)

  ghost predicate Disjoint(a: Files, b: Files) {
    a.chunkKey != b.chunkKey && a.indexKey != b.indexKey
  }

  ghost predicate Apart(files: map<string, Files>) {
    && (forall a, b | a in files && b in files && a != b :: Disjoint(files[a], files[b]))
    && (forall a, b | a in files && b in files :: files[a].chunkKey != files[b].indexKey)
  }

  predicate Has(bucket: map<string, bytes>, key: string, data: bytes) {
    key in bucket && bucket[key] == data
  }

  ghost predicate HasChunk(bucket: map<string, bytes>, f: Files) {
    Has(bucket, f.chunkKey, f.chunkData)
  }

  ghost predicate HasIndex(bucket: map<string, bytes>, f: Files) {
    f.indexData.Some? && Has(bucket, f.indexKey, f.indexData.value)
  }

  /** key is the chunk object of upload id, or its index file. */
  ghost predicate Owns(files: map<string, Files>, stored: set<string>, indexed: set<string>, id: string, key: string) {
    id in files && ((id in stored && key == files[id].chunkKey) || (id in indexed && key == files[id].indexKey))
  }

  ghost predicate Accounted(bucket: map<string, bytes>, files: map<string, Files>, stored: set<string>,
                            indexed: set<string>) {
    forall key | key in bucket :: exists id :: Owns(files, stored, indexed, id, key)
  }

  /** The bucket holds exactly the chunk objects of the stored uploads and the index
      files of the indexed ones. */
  ghost predicate Balanced(bucket: map<string, bytes>, files: map<string, Files>, stored: set<string>,
                           indexed: set<string>) {
    && indexed <= stored <= files.Keys
    && (forall id | id in stored :: HasChunk(bucket, files[id]))
    && (forall id | id in indexed :: HasIndex(bucket, files[id]))
    && Accounted(bucket, files, stored, indexed)
  }

  lemma Begin(bucket: map<string, bytes>, files: map<string, Files>, stored: set<string>, indexed: set<string>,
              id: string, f: Files)
    requires Balanced(bucket, files, stored, indexed) && id !in files
    ensures Balanced(bucket, files[id := f], stored, indexed)
  {
    var files' := files[id := f];
    forall key | key in bucket
      ensures exists o :: Owns(files', stored, indexed, o, key)
    {
      var o :| Owns(files, stored, indexed, o, key);
      assert Owns(files', stored, indexed, o, key);
    }
  }

  lemma StillAccounted(bucket: map<string, bytes>, files: map<string, Files>, stored: set<string>, indexed: set<string>,
                       stored': set<string>, indexed': set<string>, id: string, key: string, data: bytes)
    requires Accounted(bucket, files, stored, indexed) && stored <= stored' && indexed <= indexed'
    requires Owns(files, stored', indexed', id, key)
    ensures Accounted(bucket[key := data], files, stored', indexed')
  {
    var bucket' := bucket[key := data];
    forall k | k in bucket'
      ensures exists o :: Owns(files, stored', indexed', o, k)
    {
      if k == key {
        assert Owns(files, stored', indexed', id, k);
      } else {
        var o :| Owns(files, stored, indexed, o, k);
        assert Owns(files, stored', indexed', o, k);
      }
    }
  }

  lemma ChunkLands(bucket: map<string, bytes>, files: map<string, Files>, stored: set<string>, indexed: set<string>,
                   id: string)
    requires Balanced(bucket, files, stored, indexed) && Apart(files) && id in files
    ensures Balanced(bucket[files[id].chunkKey := files[id].chunkData], files, stored + {id}, indexed)
  {
    var f := files[id];
    var bucket' := bucket[f.chunkKey := f.chunkData];
    StillAccounted(bucket, files, stored, indexed, stored + {id}, indexed, id, f.chunkKey, f.chunkData);
    forall o | o in stored + {id}
      ensures HasChunk(bucket', files[o])
    {
      assert o != id ==> HasChunk(bucket, files[o]) && Disjoint(files[o], files[id]);
    }
    forall o | o in indexed
      ensures HasIndex(bucket', files[o])
    {
      assert HasIndex(bucket, files[o]) && files[id].chunkKey != files[o].indexKey;
    }
  }

  lemma IndexLands(bucket: map<string, bytes>, files: map<string, Files>, stored: set<string>, indexed: set<string>,
                   id: string)
    requires Balanced(bucket, files, stored, indexed) && Apart(files) && id in stored && id in files
            && files[id].indexData.Some?
    ensures Balanced(bucket[files[id].indexKey := files[id].indexData.value], files, stored, indexed + {id})
  {
    var f := files[id];
    var bucket' := bucket[f.indexKey := f.indexData.value];
    StillAccounted(bucket, files, stored, indexed, stored, indexed + {id}, id, f.indexKey, f.indexData.value);
    forall o | o in indexed + {id}
      ensures HasIndex(bucket', files[o])
    {
      assert o != id ==> HasIndex(bucket, files[o]) && Disjoint(files[o], files[id]);
    }
    forall o | o in stored
      ensures HasChunk(bucket', files[o])
    {
      assert HasChunk(bucket, files[o]) && files[o].chunkKey != files[id].indexKey;
    }
  }
}
