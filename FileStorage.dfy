/**
 * The in-memory file store (MemoryFileStorageAdapter): a map from key to a
 * file (its bytes and metadata). A stream is a sequence of byte chunks; the
 * wall clock is an explicit `now`, and the `etag` library function is a
 * function value the store is built with, about which nothing is assumed.
 *
 * Two behaviours of the source are kept as written: update and updateStream
 * build the new file but never store it, and every copy or move stores an
 * empty byte buffer under the destination. UpdateIntended and CopyIntended
 * are the corrected operations.
 */
module MemoryFileStorage {
  import opened Wrappers

  datatype FileWriteEnum = SUCCESS | NOT_FOUND | KEY_EXISTS

  datatype Metadata = Metadata(etag: string, contentType: string, createdAt: int, updatedAt: Option<int>)

  datatype MemoryFile = MemoryFile(data: seq<bv8>, metadata: Metadata)

  /** What getMetaData reports. */
  datatype FileAdapterMetadata = FileAdapterMetadata(
    etag: string, contentType: string, fileSizeInBytes: nat, createdAt: int, updatedAt: Option<int>)

  datatype WritableContent = WritableContent(data: seq<bv8>, contentType: string)

  datatype WritableStream = WritableStream(chunks: seq<seq<bv8>>, contentType: string)

  /** The keys listed in a removeMany call. */
  function KeySet(keys: seq<string>): set<string>
  {
    set k | k in keys
  }

  /** The bytes of a stream: its chunks concatenated in order. */
  function Flatten(chunks: seq<seq<bv8>>): seq<bv8>
    decreases |chunks|
  {
    if chunks == [] then [] else Flatten(chunks[..|chunks| - 1]) + chunks[|chunks| - 1]
  }

  /** The bytes of two streams read one after the other are the first's bytes followed by the second's. */
  lemma {:induction false} FlattenAppend(left: seq<seq<bv8>>, right: seq<seq<bv8>>)
    ensures Flatten(left + right) == Flatten(left) + Flatten(right)
    decreases |right|
  {
    if right == [] {
      assert left + right == left;
    } else {
      var init := right[..|right| - 1];
      assert (left + right)[..|left + right| - 1] == left + init;
      FlattenAppend(left, init);
    }
  }

  /**
   * `target.copy(source)` on Node buffers: `target` is the buffer copied FROM,
   * and `source` the one written INTO, over the shorter of the two lengths.
   */
  function BufferCopy(from: seq<bv8>, into: seq<bv8>): (r: seq<bv8>)
    ensures |r| == |into|
    ensures forall i | 0 <= i < |into| :: r[i] == if i < |from| then from[i] else into[i]
    ensures |from| == 0 ==> r == into
  {
    if |from| < |into| then from + into[|from|..] else from[..|into|]
  }

  /** Collects a stream the way the source does, chunk after chunk. */
  method ReadStream(chunks: seq<seq<bv8>>) returns (totalData: seq<bv8>)
    ensures totalData == Flatten(chunks)
  {
    totalData := [];
    var i := 0;
    while i < |chunks|
      invariant 0 <= i <= |chunks|
      invariant totalData == Flatten(chunks[..i])
    {
      assert chunks[..i + 1][..i] == chunks[..i];
      totalData := totalData + chunks[i];
      i := i + 1;
    }
    assert chunks[..i] == chunks;
  }

  class MemoryFileStorageAdapter {
    var store: map<string, MemoryFile>
    const etag: seq<bv8> -> string

    constructor(etag: seq<bv8> -> string)
      ensures store == map[] && this.etag == etag
    {
      this.etag := etag;
      store := map[];
    }

    /** A newly written file: fresh etag, created now, never updated. */
    function NewFile(data: seq<bv8>, contentType: string, now: int): (f: MemoryFile)
    {
      MemoryFile(data, Metadata(etag(data), contentType, now, None))
    }

    method DeInit()
      modifies this
      ensures store == map[]
    {
      store := map[];
    }

    function Exists(key: string): (r: bool)
      reads this
      ensures r <==> key in store
    {
      key in store
    }

    /** A stream of one chunk holding the stored bytes, or nothing for a missing key. */
    function GetStream(key: string): (r: Option<seq<seq<bv8>>>)
      reads this
      ensures r.Some? <==> key in store
      ensures r.Some? ==> Flatten(r.value) == store[key].data
    {
      if key !in store then None
      else
        var r := [store[key].data];
        assert Flatten(r) == Flatten([]) + store[key].data;
        Some(r)
    }

    function GetBytes(key: string): (r: Option<seq<bv8>>)
      reads this
      ensures r.Some? <==> key in store
      ensures r.Some? ==> r.value == store[key].data
    {
      if key !in store then None else Some(store[key].data)
    }

    /** The stored metadata with the size of the stored bytes, or nothing for a missing key. */
    function GetMetaData(key: string): (r: Option<FileAdapterMetadata>)
      reads this
      ensures r.Some? <==> key in store
      ensures r.Some? ==> r.value.fileSizeInBytes == |store[key].data|
      ensures r.Some? ==>
                var m := store[key].metadata;
                r.value.etag == m.etag && r.value.contentType == m.contentType &&
                r.value.createdAt == m.createdAt && r.value.updatedAt == m.updatedAt
    {
      if key !in store then None
      else
        var file := store[key];
        Some(FileAdapterMetadata(file.metadata.etag, file.metadata.contentType, |file.data|,
                                 file.metadata.createdAt, file.metadata.updatedAt))
    }

    method Add(key: string, content: WritableContent, now: int) returns (added: bool)
      modifies this
      ensures added <==> key !in old(store)
      ensures added ==> store == old(store)[key := NewFile(content.data, content.contentType, now)]
      ensures !added ==> store == old(store)
    {
      if key in store {
        return false;
      }
      var data := content.data;
      store := store[key := MemoryFile(data, Metadata(etag(data), content.contentType, now, None))];
      return true;
    }

    method AddStream(key: string, stream: WritableStream, now: int) returns (added: bool)
      modifies this
      ensures added <==> key !in old(store)
      ensures added ==> store == old(store)[key := NewFile(Flatten(stream.chunks), stream.contentType, now)]
      ensures !added ==> store == old(store)
    {
      if key in store {
        return false;
      }
      var totalData := ReadStream(stream.chunks);
      store := store[key := MemoryFile(totalData, Metadata(etag(totalData), stream.contentType, now, None))];
      return true;
    }

    /** As written: reports whether the key exists, but the updated file is never stored. */
    method Update(key: string, content: WritableContent, now: int) returns (updated: bool)
      modifies this
      ensures updated <==> key in old(store)
      ensures store == old(store)
    {
      if key !in store {
        return false;
      }
      var file := store[key];
      var data := content.data;
      file := MemoryFile(data, Metadata(etag(data), content.contentType, file.metadata.createdAt, Some(now)));
      return true;
    }

    /** As written: consumes the stream, reports whether the key exists, stores nothing. */
    method UpdateStream(key: string, stream: WritableStream, now: int) returns (updated: bool)
      modifies this
      ensures updated <==> key in old(store)
      ensures store == old(store)
    {
      if key !in store {
        return false;
      }
      var file := store[key];
      var totalData := ReadStream(stream.chunks);
      file := MemoryFile(totalData, Metadata(etag(totalData), stream.contentType, file.metadata.createdAt, Some(now)));
      return true;
    }

    /** Corrected update: replaces the bytes of an existing file, keeping its creation date. */
    method UpdateIntended(key: string, content: WritableContent, now: int) returns (updated: bool)
      modifies this
      ensures updated <==> key in old(store)
      ensures updated ==>
                store == old(store)[key := MemoryFile(content.data,
                  Metadata(etag(content.data), content.contentType, old(store)[key].metadata.createdAt, Some(now)))]
      ensures !updated ==> store == old(store)
    {
      if key !in store {
        return false;
      }
      var file := store[key];
      var data := content.data;
      file := MemoryFile(data, Metadata(etag(data), content.contentType, file.metadata.createdAt, Some(now)));
      store := store[key := file];
      return true;
    }

    /** Always stores the new file; reports whether the key existed before. */
    method Put(key: string, content: WritableContent, now: int) returns (existed: bool)
      modifies this
      ensures existed <==> key in old(store)
      ensures store == old(store)[key := NewFile(content.data, content.contentType, now)]
    {
      var data := content.data;
      existed := key in store;
      store := store[key := MemoryFile(data, Metadata(etag(data), content.contentType, now, None))];
    }

    method PutStream(key: string, stream: WritableStream, now: int) returns (existed: bool)
      modifies this
      ensures existed <==> key in old(store)
      ensures store == old(store)[key := NewFile(Flatten(stream.chunks), stream.contentType, now)]
    {
      var totalData := ReadStream(stream.chunks);
      existed := key in store;
      store := store[key := MemoryFile(totalData, Metadata(etag(totalData), stream.contentType, now, None))];
    }

    /**
     * As written: the destination gets the source's metadata and the
     * zero-length buffer that `Buffer.copy` was called on; the source is unchanged.
     */
    method Copy(source: string, destination: string) returns (result: FileWriteEnum)
      modifies this
      ensures source !in old(store) ==> result == NOT_FOUND && store == old(store)
      ensures source in old(store) && destination in old(store) ==> result == KEY_EXISTS && store == old(store)
      ensures source in old(store) && destination !in old(store) ==>
                result == SUCCESS &&
                store == old(store)[destination := MemoryFile([], old(store)[source].metadata)]
    {
      if source !in store {
        return NOT_FOUND;
      }
      var sourceFile := store[source];
      if destination in store {
        return KEY_EXISTS;
      }
      var copiedBuffer: seq<bv8> := [];
      store := store[source := sourceFile.(data := BufferCopy(copiedBuffer, sourceFile.data))];
      store := store[destination := MemoryFile(copiedBuffer, sourceFile.metadata)];
      return SUCCESS;
    }

    /** Corrected copy: the destination gets the source's bytes as well as its metadata. */
    method CopyIntended(source: string, destination: string) returns (result: FileWriteEnum)
      modifies this
      ensures source !in old(store) ==> result == NOT_FOUND && store == old(store)
      ensures source in old(store) && destination in old(store) ==> result == KEY_EXISTS && store == old(store)
      ensures source in old(store) && destination !in old(store) ==>
                result == SUCCESS && store == old(store)[destination := old(store)[source]]
    {
      if source !in store {
        return NOT_FOUND;
      }
      var sourceFile := store[source];
      if destination in store {
        return KEY_EXISTS;
      }
      store := store[destination := MemoryFile(sourceFile.data, sourceFile.metadata)];
      return SUCCESS;
    }

    /** As written: overwrites the destination with the source's metadata and no bytes. */
    method CopyAndReplace(source: string, destination: string) returns (copied: bool)
      modifies this
      ensures copied <==> source in old(store)
      ensures copied ==> store == old(store)[destination := MemoryFile([], old(store)[source].metadata)]
      ensures !copied ==> store == old(store)
    {
      if source !in store {
        return false;
      }
      var sourceFile := store[source];
      var copiedBuffer: seq<bv8> := [];
      store := store[source := sourceFile.(data := BufferCopy(copiedBuffer, sourceFile.data))];
      store := store[destination := MemoryFile(copiedBuffer, sourceFile.metadata)];
      return true;
    }

    /** Copy, and on success only, delete the source. */
    method Move(source: string, destination: string) returns (result: FileWriteEnum)
      modifies this
      ensures source !in old(store) ==> result == NOT_FOUND && store == old(store)
      ensures source in old(store) && destination in old(store) ==> result == KEY_EXISTS && store == old(store)
      ensures source in old(store) && destination !in old(store) ==>
                result == SUCCESS &&
                store == old(store)[destination := MemoryFile([], old(store)[source].metadata)] - {source}
    {
      if source !in store {
        return NOT_FOUND;
      }
      var sourceFile := store[source];
      if destination in store {
        return KEY_EXISTS;
      }
      var copiedBuffer: seq<bv8> := [];
      store := store[source := sourceFile.(data := BufferCopy(copiedBuffer, sourceFile.data))];
      store := store[destination := MemoryFile(copiedBuffer, sourceFile.metadata)];
      store := store - {source};
      return SUCCESS;
    }

    /** Overwrite the destination, then delete the source: moving a key onto itself deletes it. */
    method MoveAndReplace(source: string, destination: string) returns (moved: bool)
      modifies this
      ensures moved <==> source in old(store)
      ensures moved ==> store == old(store)[destination := MemoryFile([], old(store)[source].metadata)] - {source}
      ensures moved && source == destination ==> source !in store
      ensures !moved ==> store == old(store)
    {
      if source !in store {
        return false;
      }
      var sourceFile := store[source];
      var copiedBuffer: seq<bv8> := [];
      store := store[source := sourceFile.(data := BufferCopy(copiedBuffer, sourceFile.data))];
      store := store[destination := MemoryFile(copiedBuffer, sourceFile.metadata)];
      store := store - {source};
      return true;
    }

    /** Deletes every listed key; true iff at least one of them existed. */
    method RemoveMany(keys: seq<string>) returns (removed: bool)
      modifies this
      ensures removed <==> exists i | 0 <= i < |keys| :: keys[i] in old(store)
      ensures store == old(store) - KeySet(keys)
    {
      removed := false;
      var i := 0;
      while i < |keys|
        invariant 0 <= i <= |keys|
        invariant store == old(store) - KeySet(keys[..i])
        invariant removed <==> exists j | 0 <= j < i :: keys[j] in old(store)
      {
        var key := keys[i];
        assert KeySet(keys[..i + 1]) == KeySet(keys[..i]) + {key} by {
          assert keys[..i + 1] == keys[..i] + [key];
        }
        var hasDeleted := key in store;
        store := store - {key};
        if hasDeleted {
          removed := true;
        } else if key in old(store) {
          assert exists j | 0 <= j < i :: keys[j] == key;
        }
        i := i + 1;
      }
      assert keys[..i] == keys;
    }

    /** Deletes exactly the keys that start with `prefix`. */
    method RemoveByPrefix(prefix: string)
      modifies this
      ensures store == map k | k in old(store) && !(prefix <= k) :: old(store)[k]
    {
      var pending := store.Keys;
      while pending != {}
        invariant pending <= old(store).Keys
        invariant store == map k | k in old(store) && (k in pending || !(prefix <= k)) :: old(store)[k]
        decreases pending
      {
        var key :| key in pending;
        if prefix <= key {
          store := store - {key};
        }
        pending := pending - {key};
      }
    }
  }

  /** An update that reports success leaves the old bytes in place. */
  method UpdateIsLostScenario(etag: seq<bv8> -> string, now: int)
    returns (updated: bool, bytes: Option<seq<bv8>>)
    ensures updated && bytes == Some([1, 2])
  {
    var files := new MemoryFileStorageAdapter(etag);
    var _ := files.Add("a", WritableContent([1, 2], "text/plain"), now);
    updated := files.Update("a", WritableContent([9], "text/plain"), now + 1);
    bytes := files.GetBytes("a");
  }

  /** A successful copy leaves an empty destination whose reported size is zero. */
  method CopyLosesBytesScenario(etag: seq<bv8> -> string, now: int)
    returns (result: FileWriteEnum, bytes: Option<seq<bv8>>, size: nat)
    ensures result == SUCCESS && bytes == Some([]) && size == 0
  {
    var files := new MemoryFileStorageAdapter(etag);
    var _ := files.Add("a", WritableContent([1, 2, 3], "text/plain"), now);
    result := files.Copy("a", "b");
    bytes := files.GetBytes("b");
    var metadata := files.GetMetaData("b");
    size := metadata.value.fileSizeInBytes;
  }

  /** With the corrected operations the new bytes are stored and copied. */
  method IntendedScenario(etag: seq<bv8> -> string, now: int)
    returns (updated: Option<seq<bv8>>, copied: Option<seq<bv8>>)
    ensures updated == Some([9]) && copied == Some([9])
  {
    var files := new MemoryFileStorageAdapter(etag);
    var _ := files.Add("a", WritableContent([1, 2], "text/plain"), now);
    var _ := files.UpdateIntended("a", WritableContent([9], "text/plain"), now + 1);
    updated := files.GetBytes("a");
    var _ := files.CopyIntended("a", "b");
    copied := files.GetBytes("b");
  }
}
