/** A mounted partition (struct fs_info) and its block device. */
module Volumes {
  import opened Blocks
  import opened BlockTree
  import opened Bitmaps

  datatype Kind = Regular | Directory | Symlink

  /** struct ext2_inode: ptr holds dir_block_ptr[12] and the single, double and triple indirect pointers. */
  datatype Inode = Inode(kind: Kind, size: nat, links: nat, sectors: nat, ptr: seq<nat>)

  /**
   * The metadata blocks (superblock, group descriptors, bitmaps, inode tables) are kept as the fields `blocks`,
   * `inodes` and `itab`; `disk` is the rest of the device.
   */
  class Volume {
    var disk: seq<Block>
    const blocks: Bitmap
    const inodes: Bitmap
    var itab: map<nat, Inode>        // the inode table
    ghost var trees: map<nat, Tree>  // the block tree of every live inode
    ghost const meta: set<nat>       // the metadata blocks

    constructor (disk: seq<Block>, blocks: Bitmap, inodes: Bitmap, itab: map<nat, Inode>, ghost trees: map<nat, Tree>, ghost meta: set<nat>)
      ensures this.disk == disk && this.blocks == blocks && this.inodes == inodes
      ensures this.itab == itab && this.trees == trees && this.meta == meta
    {
      this.disk, this.blocks, this.inodes := disk, blocks, inodes;
      this.itab, this.trees, this.meta := itab, trees, meta;
    }

    /** The block bitmap is sound and hands out only numbers of blocks that exist and fit a 32-bit pointer. */
    ghost predicate BlocksReady()
      reads this, blocks
    {
      && blocks.Valid() && blocks.fail == 0
      && blocks.limit <= |disk| <= 0x2000_0000   // read_block multiplies the number by 8 in 32 bits
    }

    lemma FitsWord(b: nat)
      requires BlocksReady() && b < |disk|
      ensures IsWord(b)
    {
    }

    lemma FitsDisk()
      requires BlocksReady()
      ensures |disk| <= 0x2000_0000
    {
    }

    /** read_block into a buffer of 32-bit pointers. */
    method ReadPtrs(b: nat) returns (ws: seq<nat>)
      requires b < |disk|
      ensures ws == Ptrs(disk[b])
    {
      ws := Decode(disk[b]);
    }

    /** write_block from a buffer of 32-bit pointers. */
    method WritePtrs(b: nat, ws: seq<nat>)
      requires b < |disk| && |ws| == 1024 && forall i :: 0 <= i < 1024 ==> IsWord(ws[i])
      modifies `disk
      ensures |disk| == |old(disk)| && Ptrs(disk[b]) == ws && (old(BlocksReady()) ==> BlocksReady())
      ensures forall x :: 0 <= x < |disk| && x != b ==> disk[x] == old(disk[x])
    {
      disk := disk[b := PtrBlock(ws)];
    }

    /** read_block. */
    method ReadBlock(b: nat) returns (blk: Block)
      requires b < |disk|
      ensures blk == disk[b]
    {
      blk := disk[b];
    }

    /** write_block. */
    method WriteBlock(b: nat, blk: Block)
      requires b < |disk|
      modifies `disk
      ensures disk == old(disk)[b := blk] && (old(BlocksReady()) ==> BlocksReady())
    {
      disk := disk[b := blk];
    }

    /** A kmalloc'd block buffer: its bytes are whatever was there before. */
    method Scratch() returns (blk: Block)
    {
      blk := *;
    }

    /** alloc_block: a free block, or 0 when the disk is full. */
    method AllocBlock() returns (b: nat)
      requires BlocksReady()
      modifies blocks
      ensures BlocksReady()
      ensures b == 0 <==> old(blocks.superFree) == 0
      ensures b == 0 ==> blocks.used == old(blocks.used) && blocks.superFree == 0
      ensures b != 0 ==> b < |disk| && b !in old(blocks.used) && blocks.used == old(blocks.used) + {b}
      ensures b != 0 ==> blocks.superFree == old(blocks.superFree) - 1
    {
      b := blocks.Alloc();
    }

    /** free_block on an allocated block. */
    method FreeBlock(b: nat)
      requires BlocksReady() && b in blocks.used && b != 0
      modifies blocks
      ensures BlocksReady() && blocks.used == old(blocks.used) - {b} && blocks.superFree == old(blocks.superFree) + 1
    {
      var _ := blocks.Free(b);
    }

    /** alloc_block, zero_block_buf and write_block: a fresh all-zero pointer block, or 0 when the disk is full. */
    method MintPointerBlock() returns (b: nat)
      requires BlocksReady()
      modifies `disk, blocks
      ensures BlocksReady() && |disk| == |old(disk)|
      ensures b == 0 <==> old(blocks.superFree) == 0
      ensures b == 0 ==> blocks.used == old(blocks.used) && blocks.superFree == 0 && disk == old(disk)
      ensures b != 0 ==> b < |disk| && b !in old(blocks.used) && blocks.used == old(blocks.used) + {b}
      ensures b != 0 ==> blocks.superFree == old(blocks.superFree) - 1 && AllZero(Ptrs(disk[b]))
      ensures forall x :: 0 <= x < |disk| && x != b ==> disk[x] == old(disk[x])
    {
      b := AllocBlock();
      if b == 0 { return; }
      WritePtrs(b, seq(1024, _ => 0));
    }
  }
}
