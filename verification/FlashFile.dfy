/**
 A compressed file of the read-only flash file system (NeonRtFs.c), read piece by piece
 through the suspendable decoder: the reads deliver the batch decoding of the file,
 whatever length the header gives it, but for a read that starts exactly at that length.
 */
module FlashFile {
  import opened Lzss
  import opened Heatshrink

  const CHUNK := 16

  /** An open file; `image` is its compressed data after the byte that holds the sizes. */
  class File {
    const image: seq<Byte>
    const dec: Decoder
    ghost const contents: seq<Byte>
    const fileLenDecomp: nat

    var posComp: nat
    var posDecomp: nat

    ghost predicate Valid()
      reads this, dec, dec.buffers
    {
      && dec.Valid() && 7 <= dec.p.window + dec.p.lookahead && dec.inputBufferSize == CHUNK
      && posComp <= |image| && dec.sunk == image[..posComp] && posDecomp == |dec.out|
      && contents == DecodeStream(image, dec.p)
    }

    /** What has been read so far is the beginning of the contents. */
    lemma ReadSoFar()
      requires Valid()
      ensures dec.out <= contents
    {
      hide DecodeStream, Decoder.Valid;
      dec.OutputOk();
      StreamMonotone(dec.sunk, image, dec.p);
    }

    /** With the whole file sunk, a settled decoder has delivered all of the contents. */
    lemma AllRead()
      requires Valid() && posComp == |image| && dec.Settled()
      ensures dec.out == contents
    {
      hide DecodeStream, Decoder.Valid;
      dec.DrainedExactly();
      assert image[..posComp] == image;
    }

    /** The compressed case of NeonRtFsOpen; the header gives the decompressed length. */
    constructor (image: seq<Byte>, fileLenDecomp: nat, p: Params)
      requires p.Ok() && 7 <= p.window + p.lookahead
      ensures Valid() && posComp == 0 && posDecomp == 0 && this.image == image && dec.p == p
      ensures this.fileLenDecomp == fileLenDecomp
      ensures fresh(dec) && fresh(dec.buffers)
    {
      this.image, posComp, posDecomp := image, 0, 0;
      contents := DecodeStream(image, p);
      this.fileLenDecomp := fileLenDecomp;
      var d := new Decoder(CHUNK, p);
      dec := d;
    }

    /** One turn of the loop in NeonRtFsRead: more input if there is any, then output from buff[decoded] on. */
    method Turn(buff: array<Byte>, len: nat, decoded: nat) returns (rlen: nat, elen: nat)
      requires Valid() && decoded < len <= buff.Length && buff != dec.buffers
      modifies this`posComp, this`posDecomp, dec, dec.buffers, buff
      ensures Valid() && posDecomp == old(posDecomp) + rlen && decoded + rlen <= len
      ensures buff[..decoded] == old(buff[..decoded]) && dec.out == old(dec.out) + buff[decoded..decoded + rlen]
      ensures elen == |image| - old(posComp) && old(posComp) <= posComp
      ensures elen > 0 ==> old(posComp) < posComp || 0 < rlen || dec.inputSize < old(dec.inputSize)
      ensures elen == 0 && decoded + rlen < len ==> dec.Settled()
    {
      hide DecodeStream, Decoder.Valid, Decoder.Settled, Decoder.Consistent, Began, BitsOf;
      elen := |image| - posComp;
      if elen > 0 {
        ghost var start := posComp;
        var ebuff := image[posComp..posComp + if elen > CHUNK then CHUNK else elen];
        var _, n := dec.Sink(ebuff);
        posComp := posComp + n;
        assert image[..posComp] == image[..start] + ebuff[..n];
      }
      var _, n := dec.Poll(buff, decoded, len - decoded);
      rlen := n;
      posDecomp := posDecomp + rlen;
    }

    /**
     The heatshrink case of NeonRtFsRead: the next bytes of the contents, fewer than asked for
     only at their end, or none at all where the header says that they end.
     */
    method Read(buff: array<Byte>, len: nat) returns (decoded: nat)
      requires Valid() && len <= buff.Length && buff != dec.buffers
      modifies this`posComp, this`posDecomp, dec, dec.buffers, buff
      ensures Valid() && posDecomp == old(posDecomp) + decoded <= |contents|
      ensures old(posDecomp) == fileLenDecomp ==> decoded == 0
      ensures old(posDecomp) != fileLenDecomp || fileLenDecomp == |contents| ==>
                decoded == if len < |contents| - old(posDecomp) then len else |contents| - old(posDecomp)
      ensures buff[..decoded] == contents[old(posDecomp)..posDecomp]
    {
      hide File.Valid, Decoder.Settled;
      Positions();
      decoded := 0;
      if posDecomp == fileLenDecomp {
        return;
      }
      assert buff[0..0] == [];
      while decoded < len
        invariant Valid() && decoded <= len && posDecomp == old(posDecomp) + decoded && posComp <= |image|
        invariant dec.out == old(dec.out) + buff[0..decoded]
        decreases |image| - posComp, len - decoded, dec.inputSize
      {
        ghost var was, before := buff[..], dec.out;
        var rlen, elen := Turn(buff, len, decoded);
        OutputGrows(old(dec.out), before, dec.out, was, buff[..], 0, decoded, decoded + rlen);
        decoded := decoded + rlen;
        Positions();
        if elen == 0 {
          if decoded < len {
            AllRead();
          }
          ReadPart(old(dec.out), buff[0..decoded]);
          return;
        }
      }
      Positions();
      ReadPart(old(dec.out), buff[0..decoded]);
    }

    lemma Positions()
      requires Valid()
      ensures posComp <= |image| && posDecomp == |dec.out| && dec.out <= contents
    {
      hide Decoder.Valid;
      ReadSoFar();
    }

    /** What has come out since is the part of the contents behind what had come out before. */
    lemma ReadPart(before: seq<Byte>, part: seq<Byte>)
      requires dec.out == before + part && dec.out <= contents
      ensures part == contents[|before|..|before| + |part|]
    {
      assert part == dec.out[|before|..];
    }
  }
}
