/** The fixed substitution tables SS0..SS3 and the key-schedule constants KC of
 *  the SEED cryptor, with the values of crypt/crypt.cpp. Each table is a function
 *  of the byte that indexes it; no proof in this project depends on the values. */
module SeedTables {

  function SS0(b: bv8): bv32 {
    match b
    case 0 => 0x2989a1a8
    case 1 => 0x05858184
    case 2 => 0x16c6d2d4
    case 3 => 0x13c3d1d4
    case 4 => 0x14445054
    case 5 => 0x1d0d111c
    case 6 => 0x2c8ca0ac
    case 7 => 0x25052124
    case 8 => 0x1d4d515c
    case 9 => 0x03434340
    case 10 => 0x18081018
    case 11 => 0x1e0e121c
    case 12 => 0x11415150
    case 13 => 0x3cccf0fc
    case 14 => 0x0acac2c8
    case 15 => 0x23436360
    case 16 => 0x28082028
    case 17 => 0x04444044
    case 18 => 0x20002020
    case 19 => 0x1d8d919c
    case 20 => 0x20c0e0e0
    case 21 => 0x22c2e2e0
    case 22 => 0x08c8c0c8
    case 23 => 0x17071314
    case 24 => 0x2585a1a4
    case 25 => 0x0f8f838c
    case 26 => 0x03030300
    case 27 => 0x3b4b7378
    case 28 => 0x3b8bb3b8
    case 29 => 0x13031110
    case 30 => 0x12c2d0d4
    case 31 => 0x2ecee2ec
    case 32 => 0x30407070
    case 33 => 0x0c8c808c
    case 34 => 0x3f0f333c
    case 35 => 0x2888a0a8
    case 36 => 0x32023230
    case 37 => 0x1dcdd1dc
    case 38 => 0x36c6f2f4
    case 39 => 0x34447074
    case 40 => 0x2ccce0ec
    case 41 => 0x15859194
    case 42 => 0x0b0b0308
    case 43 => 0x17475354
    case 44 => 0x1c4c505c
    case 45 => 0x1b4b5358
    case 46 => 0x3d8db1bc
    case 47 => 0x01010100
    case 48 => 0x24042024
    case 49 => 0x1c0c101c
    case 50 => 0x33437370
    case 51 => 0x18889098
    case 52 => 0x10001010
    case 53 => 0x0cccc0cc
    case 54 => 0x32c2f0f4
    case 55 => 0x19c9d1d8
    case 56 => 0x2c0c202c
    case 57 => 0x27c7e3e4
    case 58 => 0x32427270
    case 59 => 0x03838380
    case 60 => 0x1b8b9398
    case 61 => 0x11c1d1d0
    case 62 => 0x06868284
    case 63 => 0x09c9c1c8
    case 64 => 0x20406060
    case 65 => 0x10405050
    case 66 => 0x2383a3a0
    case 67 => 0x2bcbe3e8
    case 68 => 0x0d0d010c
    case 69 => 0x3686b2b4
    case 70 => 0x1e8e929c
    case 71 => 0x0f4f434c
    case 72 => 0x3787b3b4
    case 73 => 0x1a4a5258
    case 74 => 0x06c6c2c4
    case 75 => 0x38487078
    case 76 => 0x2686a2a4
    case 77 => 0x12021210
    case 78 => 0x2f8fa3ac
    case 79 => 0x15c5d1d4
    case 80 => 0x21416160
    case 81 => 0x03c3c3c0
    case 82 => 0x3484b0b4
    case 83 => 0x01414140
    case 84 => 0x12425250
    case 85 => 0x3d4d717c
    case 86 => 0x0d8d818c
    case 87 => 0x08080008
    case 88 => 0x1f0f131c
    case 89 => 0x19899198
    case 90 => 0x00000000
    case 91 => 0x19091118
    case 92 => 0x04040004
    case 93 => 0x13435350
    case 94 => 0x37c7f3f4
    case 95 => 0x21c1e1e0
    case 96 => 0x3dcdf1fc
    case 97 => 0x36467274
    case 98 => 0x2f0f232c
    case 99 => 0x27072324
    case 100 => 0x3080b0b0
    case 101 => 0x0b8b8388
    case 102 => 0x0e0e020c
    case 103 => 0x2b8ba3a8
    case 104 => 0x2282a2a0
    case 105 => 0x2e4e626c
    case 106 => 0x13839390
    case 107 => 0x0d4d414c
    case 108 => 0x29496168
    case 109 => 0x3c4c707c
    case 110 => 0x09090108
    case 111 => 0x0a0a0208
    case 112 => 0x3f8fb3bc
    case 113 => 0x2fcfe3ec
    case 114 => 0x33c3f3f0
    case 115 => 0x05c5c1c4
    case 116 => 0x07878384
    case 117 => 0x14041014
    case 118 => 0x3ecef2fc
    case 119 => 0x24446064
    case 120 => 0x1eced2dc
    case 121 => 0x2e0e222c
    case 122 => 0x0b4b4348
    case 123 => 0x1a0a1218
    case 124 => 0x06060204
    case 125 => 0x21012120
    case 126 => 0x2b4b6368
    case 127 => 0x26466264
    case 128 => 0x02020200
    case 129 => 0x35c5f1f4
    case 130 => 0x12829290
    case 131 => 0x0a8a8288
    case 132 => 0x0c0c000c
    case 133 => 0x3383b3b0
    case 134 => 0x3e4e727c
    case 135 => 0x10c0d0d0
    case 136 => 0x3a4a7278
    case 137 => 0x07474344
    case 138 => 0x16869294
    case 139 => 0x25c5e1e4
    case 140 => 0x26062224
    case 141 => 0x00808080
    case 142 => 0x2d8da1ac
    case 143 => 0x1fcfd3dc
    case 144 => 0x2181a1a0
    case 145 => 0x30003030
    case 146 => 0x37073334
    case 147 => 0x2e8ea2ac
    case 148 => 0x36063234
    case 149 => 0x15051114
    case 150 => 0x22022220
    case 151 => 0x38083038
    case 152 => 0x34c4f0f4
    case 153 => 0x2787a3a4
    case 154 => 0x05454144
    case 155 => 0x0c4c404c
    case 156 => 0x01818180
    case 157 => 0x29c9e1e8
    case 158 => 0x04848084
    case 159 => 0x17879394
    case 160 => 0x35053134
    case 161 => 0x0bcbc3c8
    case 162 => 0x0ecec2cc
    case 163 => 0x3c0c303c
    case 164 => 0x31417170
    case 165 => 0x11011110
    case 166 => 0x07c7c3c4
    case 167 => 0x09898188
    case 168 => 0x35457174
    case 169 => 0x3bcbf3f8
    case 170 => 0x1acad2d8
    case 171 => 0x38c8f0f8
    case 172 => 0x14849094
    case 173 => 0x19495158
    case 174 => 0x02828280
    case 175 => 0x04c4c0c4
    case 176 => 0x3fcff3fc
    case 177 => 0x09494148
    case 178 => 0x39093138
    case 179 => 0x27476364
    case 180 => 0x00c0c0c0
    case 181 => 0x0fcfc3cc
    case 182 => 0x17c7d3d4
    case 183 => 0x3888b0b8
    case 184 => 0x0f0f030c
    case 185 => 0x0e8e828c
    case 186 => 0x02424240
    case 187 => 0x23032320
    case 188 => 0x11819190
    case 189 => 0x2c4c606c
    case 190 => 0x1bcbd3d8
    case 191 => 0x2484a0a4
    case 192 => 0x34043034
    case 193 => 0x31c1f1f0
    case 194 => 0x08484048
    case 195 => 0x02c2c2c0
    case 196 => 0x2f4f636c
    case 197 => 0x3d0d313c
    case 198 => 0x2d0d212c
    case 199 => 0x00404040
    case 200 => 0x3e8eb2bc
    case 201 => 0x3e0e323c
    case 202 => 0x3c8cb0bc
    case 203 => 0x01c1c1c0
    case 204 => 0x2a8aa2a8
    case 205 => 0x3a8ab2b8
    case 206 => 0x0e4e424c
    case 207 => 0x15455154
    case 208 => 0x3b0b3338
    case 209 => 0x1cccd0dc
    case 210 => 0x28486068
    case 211 => 0x3f4f737c
    case 212 => 0x1c8c909c
    case 213 => 0x18c8d0d8
    case 214 => 0x0a4a4248
    case 215 => 0x16465254
    case 216 => 0x37477374
    case 217 => 0x2080a0a0
    case 218 => 0x2dcde1ec
    case 219 => 0x06464244
    case 220 => 0x3585b1b4
    case 221 => 0x2b0b2328
    case 222 => 0x25456164
    case 223 => 0x3acaf2f8
    case 224 => 0x23c3e3e0
    case 225 => 0x3989b1b8
    case 226 => 0x3181b1b0
    case 227 => 0x1f8f939c
    case 228 => 0x1e4e525c
    case 229 => 0x39c9f1f8
    case 230 => 0x26c6e2e4
    case 231 => 0x3282b2b0
    case 232 => 0x31013130
    case 233 => 0x2acae2e8
    case 234 => 0x2d4d616c
    case 235 => 0x1f4f535c
    case 236 => 0x24c4e0e4
    case 237 => 0x30c0f0f0
    case 238 => 0x0dcdC1cc
    case 239 => 0x08888088
    case 240 => 0x16061214
    case 241 => 0x3a0a3238
    case 242 => 0x18481058
    case 243 => 0x14c4d0d4
    case 244 => 0x22426260
    case 245 => 0x29092128
    case 246 => 0x07070304
    case 247 => 0x33033330
    case 248 => 0x28c8e0e8
    case 249 => 0x1b0b1318
    case 250 => 0x05050104
    case 251 => 0x39497178
    case 252 => 0x10809090
    case 253 => 0x2a4a6268
    case 254 => 0x2a0a2228
    case _ => 0x1a8a9298  // b == 255
  }

  function SS1(b: bv8): bv32 {
    match b
    case 0 => 0x38380830
    case 1 => 0xe828c8e0
    case 2 => 0x2c2d0d21
    case 3 => 0xa42686a2
    case 4 => 0xcc0fcfc3
    case 5 => 0xdc1eced2
    case 6 => 0xb03383b3
    case 7 => 0xb83888b0
    case 8 => 0xac2f8fa3
    case 9 => 0x60204060
    case 10 => 0x54154551
    case 11 => 0xc407c7c3
    case 12 => 0x44044440
    case 13 => 0x6c2f4f63
    case 14 => 0x682b4b63
    case 15 => 0x581b4b53
    case 16 => 0xc003c3c3
    case 17 => 0x60224262
    case 18 => 0x30330333
    case 19 => 0xb43585b1
    case 20 => 0x28290921
    case 21 => 0xa02080a0
    case 22 => 0xe022c2e2
    case 23 => 0xa42787a3
    case 24 => 0xd013c3d3
    case 25 => 0x90118191
    case 26 => 0x10110111
    case 27 => 0x04060602
    case 28 => 0x1c1c0c10
    case 29 => 0xbc3c8cb0
    case 30 => 0x34360632
    case 31 => 0x480b4b43
    case 32 => 0xec2fcfe3
    case 33 => 0x88088880
    case 34 => 0x6c2c4c60
    case 35 => 0xa82888a0
    case 36 => 0x14170713
    case 37 => 0xc404c4c0
    case 38 => 0x14160612
    case 39 => 0xf434c4f0
    case 40 => 0xc002c2c2
    case 41 => 0x44054541
    case 42 => 0xe021c1e1
    case 43 => 0xd416c6d2
    case 44 => 0x3c3f0f33
    case 45 => 0x3c3d0d31
    case 46 => 0x8c0e8e82
    case 47 => 0x98188890
    case 48 => 0x28280820
    case 49 => 0x4c0e4e42
    case 50 => 0xf436c6f2
    case 51 => 0x3c3e0e32
    case 52 => 0xa42585a1
    case 53 => 0xf839c9f1
    case 54 => 0x0c0d0d01
    case 55 => 0xdc1fcfd3
    case 56 => 0xd818c8d0
    case 57 => 0x282b0b23
    case 58 => 0x64264662
    case 59 => 0x783a4a72
    case 60 => 0x24270723
    case 61 => 0x2c2f0f23
    case 62 => 0xf031c1f1
    case 63 => 0x70324272
    case 64 => 0x40024242
    case 65 => 0xd414c4d0
    case 66 => 0x40014141
    case 67 => 0xc000c0c0
    case 68 => 0x70334373
    case 69 => 0x64274763
    case 70 => 0xac2c8ca0
    case 71 => 0x880b8b83
    case 72 => 0xf437c7f3
    case 73 => 0xac2d8da1
    case 74 => 0x80008080
    case 75 => 0x1c1f0f13
    case 76 => 0xc80acac2
    case 77 => 0x2c2c0c20
    case 78 => 0xa82a8aa2
    case 79 => 0x34340430
    case 80 => 0xd012c2d2
    case 81 => 0x080b0b03
    case 82 => 0xec2ecee2
    case 83 => 0xe829c9e1
    case 84 => 0x5c1d4d51
    case 85 => 0x94148490
    case 86 => 0x18180810
    case 87 => 0xf838c8f0
    case 88 => 0x54174753
    case 89 => 0xac2e8ea2
    case 90 => 0x08080800
    case 91 => 0xc405c5c1
    case 92 => 0x10130313
    case 93 => 0xcc0dcdc1
    case 94 => 0x84068682
    case 95 => 0xb83989b1
    case 96 => 0xfc3fcff3
    case 97 => 0x7c3d4d71
    case 98 => 0xc001c1c1
    case 99 => 0x30310131
    case 100 => 0xf435c5f1
    case 101 => 0x880a8a82
    case 102 => 0x682a4a62
    case 103 => 0xb03181b1
    case 104 => 0xd011c1d1
    case 105 => 0x20200020
    case 106 => 0xd417c7d3
    case 107 => 0x00020202
    case 108 => 0x20220222
    case 109 => 0x04040400
    case 110 => 0x68284860
    case 111 => 0x70314171
    case 112 => 0x04050501
    case 113 => 0xe021c1e1
    case 114 => 0x902282a2
    case 115 => 0x34350531
    case 116 => 0x381b0b33
    case 117 => 0xfc3ecef2
    case 118 => 0xe424c4e0
    case 119 => 0xb83b8bb3
    case 120 => 0x6c2e4e62
    case 121 => 0x7c3e4e72
    case 122 => 0x78394971
    case 123 => 0xdc1dcdD1
    case 124 => 0x30320232
    case 125 => 0x902080a0
    case 126 => 0x882a8aa2
    case 127 => 0xc007c7c3
    case 128 => 0x88098981
    case 129 => 0xc809c9c1
    case 130 => 0x94168692
    case 131 => 0x60214161
    case 132 => 0xbc3e8eb2
    case 133 => 0x702d4d61
    case 134 => 0x94178793
    case 135 => 0xb83d8db1
    case 136 => 0x100f0f13
    case 137 => 0xd010c0d0
    case 138 => 0xac2f8fa3
    case 139 => 0xec2ecee2
    case 140 => 0x900d8d81
    case 141 => 0x140a0a12
    case 142 => 0x580a4a42
    case 143 => 0x78380870
    case 144 => 0xfc3bcbf3
    case 145 => 0x58194951
    case 146 => 0x6c2d4d61
    case 147 => 0x481d4d41
    case 148 => 0x90158591
    case 149 => 0x381a0a32
    case 150 => 0xf033c3f3
    case 151 => 0x881d8d81
    case 152 => 0x180f0f03
    case 153 => 0x28260622
    case 154 => 0xb82989a1
    case 155 => 0xac2a8aa2
    case 156 => 0x842383a3
    case 157 => 0xfc3bcbf3
    case 158 => 0xdc1eced2
    case 159 => 0x28230323
    case 160 => 0x3c3c0c30
    case 161 => 0x70354571
    case 162 => 0xc005c5c1
    case 163 => 0x80028282
    case 164 => 0x500d4d41
    case 165 => 0xf020c0e0
    case 166 => 0xfc3dcdf1
    case 167 => 0xcc0cccc0
    case 168 => 0x20230323
    case 169 => 0x500c4c40
    case 170 => 0x10100010
    case 171 => 0xc408c8c0
    case 172 => 0x240b0b23
    case 173 => 0x280a0a22
    case 174 => 0xf836c6f2
    case 175 => 0xcc0cccc0
    case 176 => 0xe425c5e1
    case 177 => 0x88048480
    case 178 => 0x501d4d51
    case 179 => 0x0c0f0f03
    case 180 => 0xb43686b2
    case 181 => 0x7c3f4f73
    case 182 => 0x442787a3
    case 183 => 0x7c3c4c70
    case 184 => 0x501c4c50
    case 185 => 0x10150511
    case 186 => 0x180d0d01
    case 187 => 0x24250521
    case 188 => 0x58094941
    case 189 => 0xe425c5e1
    case 190 => 0xdc19c9d1
    case 191 => 0xe023c3e3
    case 192 => 0x70234363
    case 193 => 0xd414c4d0
    case 194 => 0x301e0e32
    case 195 => 0x941a8a92
    case 196 => 0xc006c6c2
    case 197 => 0x840e8e82
    case 198 => 0x901f8f93
    case 199 => 0xc004c4c0
    case 200 => 0x800b8b83
    case 201 => 0x50104050
    case 202 => 0x240c0c20
    case 203 => 0x00000000
    case 204 => 0x7c294961
    case 205 => 0x28250521
    case 206 => 0xa02282a2
    case 207 => 0x9414c490
    case 208 => 0x18140410
    case 209 => 0x40034343
    case 210 => 0x200a0a22
    case 211 => 0x48084840
    case 212 => 0xe022c2e2
    case 213 => 0x0c0c0c00
    case 214 => 0x381e0e32
    case 215 => 0xc809c9c1
    case 216 => 0x60244464
    case 217 => 0x30310131
    case 218 => 0x94168692
    case 219 => 0x982b8ba3
    case 220 => 0x78394971
    case 221 => 0x60204060
    case 222 => 0xbc3f8fb3
    case 223 => 0x4c0f4f43
    case 224 => 0x2c280820
    case 225 => 0x7c394971
    case 226 => 0xb83a8ab2
    case 227 => 0x6c294961
    case 228 => 0x04020202
    case 229 => 0xdc1bcbd3
    case 230 => 0x400f4f43
    case 231 => 0x5c1c4c50
    case 232 => 0xec28c8e0
    case 233 => 0x982a8aa2
    case 234 => 0x6c294961
    case 235 => 0x2c2b0b23
    case 236 => 0x8c0d8d81
    case 237 => 0x80018181
    case 238 => 0xcc0fcfc3
    case 239 => 0x80048480
    case 240 => 0x94128292
    case 241 => 0xd014c4d0
    case 242 => 0x882b8ba3
    case 243 => 0xd818c8d0
    case 244 => 0xb43787b3
    case 245 => 0x1c170713
    case 246 => 0x0c0e0e02
    case 247 => 0x30360632
    case 248 => 0xf030c0f0
    case 249 => 0xe021c1e1
    case 250 => 0x1c110111
    case 251 => 0x60274763
    case 252 => 0x98188890
    case 253 => 0x04030303
    case 254 => 0x0c0a0a02
    case _ => 0xe023c3e3  // b == 255
  }

  function SS2(b: bv8): bv32 {
    match b
    case 0 => 0x97929792
    case 1 => 0x57525752
    case 2 => 0xd7d2d7d2
    case 3 => 0xd3d6d3d6
    case 4 => 0x50555055
    case 5 => 0x11101110
    case 6 => 0xa0a5a0a5
    case 7 => 0x21242124
    case 8 => 0x51545154
    case 9 => 0x434e434e
    case 10 => 0x08150815
    case 11 => 0x12171217
    case 12 => 0x4145414d
    case 13 => 0xf0f5f0f5
    case 14 => 0xc2c5c2c5
    case 15 => 0x63666366
    case 16 => 0x08250825
    case 17 => 0x44414441
    case 18 => 0x00050005
    case 19 => 0x919c919c
    case 20 => 0xe0e1e0e1
    case 21 => 0xe2e5e2e5
    case 22 => 0xc0c1c0c1
    case 23 => 0x13161316
    case 24 => 0xa1a4a1a4
    case 25 => 0x838e838e
    case 26 => 0x03060306
    case 27 => 0x7b7e7b7e
    case 28 => 0xb3b6b3b6
    case 29 => 0x13121312
    case 30 => 0xd2d5d2d5
    case 31 => 0xe2e7e2e7
    case 32 => 0x70717071
    case 33 => 0x808d808d
    case 34 => 0x33363336
    case 35 => 0xa0a1a0a1
    case 36 => 0x32313231
    case 37 => 0xd1d4d1d4
    case 38 => 0xf2f5f2f5
    case 39 => 0x70757075
    case 40 => 0xe0e5e0e5
    case 41 => 0x91949194
    case 42 => 0x0b0e0b0e
    case 43 => 0x53565356
    case 44 => 0x50515051
    case 45 => 0x5b5e5b5e
    case 46 => 0xb1b4b1b4
    case 47 => 0x01040104
    case 48 => 0x20252025
    case 49 => 0x10151015
    case 50 => 0x73767376
    case 51 => 0x90919091
    case 52 => 0x00010001
    case 53 => 0xc0c5c0c5
    case 54 => 0xf2f1f2f1
    case 55 => 0xd1d0d1d0
    case 56 => 0x20212021
    case 57 => 0xe3e6e3e6
    case 58 => 0x72717271
    case 59 => 0x83868386
    case 60 => 0x93969396
    case 61 => 0xd1d4d1d4
    case 62 => 0x82858285
    case 63 => 0xc1c0c1c0
    case 64 => 0x60656065
    case 65 => 0x50415041
    case 66 => 0xa3a6a3a6
    case 67 => 0xe3e6e3e6
    case 68 => 0x0d080d08
    case 69 => 0xb2b5b2b5
    case 70 => 0x929d929d
    case 71 => 0x434a434a
    case 72 => 0xb3b4b3b4
    case 73 => 0x525d525d
    case 74 => 0xc2c1c2c1
    case 75 => 0x78797879
    case 76 => 0xa2a5a2a5
    case 77 => 0x12111211
    case 78 => 0xa3aea3ae
    case 79 => 0xd1d4d1d4
    case 80 => 0x61646164
    case 81 => 0xc3c6c3c6
    case 82 => 0xb0b5b0b5
    case 83 => 0x41444144
    case 84 => 0x52515251
    case 85 => 0x71747174
    case 86 => 0x818c818c
    case 87 => 0x000d000d
    case 88 => 0x131e131e
    case 89 => 0x919c919c
    case 90 => 0x00010001
    case 91 => 0x11181118
    case 92 => 0x00010001
    case 93 => 0x53565356
    case 94 => 0xf3f6f3f6
    case 95 => 0xe1e4e1e4
    case 96 => 0xf1f4f1f4
    case 97 => 0x72757275
    case 98 => 0x232e232e
    case 99 => 0x23262326
    case 100 => 0xb0b1b0b1
    case 101 => 0x838e838e
    case 102 => 0x020d020d
    case 103 => 0xa3a6a3a6
    case 104 => 0xa2a1a2a1
    case 105 => 0x626d626d
    case 106 => 0x93969396
    case 107 => 0x41484148
    case 108 => 0x696c696c
    case 109 => 0x70757075
    case 110 => 0x010c010c
    case 111 => 0x020d020d
    case 112 => 0xb3beB3be
    case 113 => 0xe3eee3ee
    case 114 => 0xf3f6f3f6
    case 115 => 0xc1c4c1c4
    case 116 => 0x83868386
    case 117 => 0x10151015
    case 118 => 0xf2f5f2f5
    case 119 => 0x60656065
    case 120 => 0xd2ddd2dd
    case 121 => 0x222d222d
    case 122 => 0x434e434e
    case 123 => 0x121d121d
    case 124 => 0x02050205
    case 125 => 0x21202120
    case 126 => 0x636e636e
    case 127 => 0x62656265
    case 128 => 0x02010201
    case 129 => 0xf1f4f1f4
    case 130 => 0x92919291
    case 131 => 0x828d828d
    case 132 => 0x000d000d
    case 133 => 0xb3b6b3b6
    case 134 => 0x727d727d
    case 135 => 0xd0d1d0d1
    case 136 => 0x727d727d
    case 137 => 0x43464346
    case 138 => 0x92959295
    case 139 => 0xe1e4e1e4
    case 140 => 0x22252225
    case 141 => 0x80818081
    case 142 => 0xa1aca1ac
    case 143 => 0xd3ded3de
    case 144 => 0xa1a0a1a0
    case 145 => 0x30313031
    case 146 => 0x33363336
    case 147 => 0xa2ada2ad
    case 148 => 0x32353235
    case 149 => 0x11141114
    case 150 => 0x22212221
    case 151 => 0x30353035
    case 152 => 0xf0f5f0f5
    case 153 => 0xa3a6a3a6
    case 154 => 0x41444144
    case 155 => 0x404d404d
    case 156 => 0x81848184
    case 157 => 0xe1e0e1e0
    case 158 => 0x80858085
    case 159 => 0x93969396
    case 160 => 0x31343134
    case 161 => 0xc3c6c3c6
    case 162 => 0xc2cdc2cd
    case 163 => 0x30353035
    case 164 => 0x71707170
    case 165 => 0x11101110
    case 166 => 0xc3c6c3c6
    case 167 => 0x818c818c
    case 168 => 0x71747174
    case 169 => 0xf3f6f3f6
    case 170 => 0xd2d1d2d1
    case 171 => 0xf0f1f0f1
    case 172 => 0x90959095
    case 173 => 0x51545154
    case 174 => 0x82818281
    case 175 => 0xc0c5c0c5
    case 176 => 0xf3feF3fe
    case 177 => 0x41444144
    case 178 => 0x31343134
    case 179 => 0x63666366
    case 180 => 0xc0c1c0c1
    case 181 => 0xc3cec3ce
    case 182 => 0xd3d6d3d6
    case 183 => 0xb0b1b0b1
    case 184 => 0x030e030e
    case 185 => 0x828d828d
    case 186 => 0x42414241
    case 187 => 0x23262326
    case 188 => 0x91909190
    case 189 => 0x606d606d
    case 190 => 0xd3d6d3d6
    case 191 => 0xa0a5a0a5
    case 192 => 0x30353035
    case 193 => 0xf1f0f1f0
    case 194 => 0x40454045
    case 195 => 0xc2c1c2c1
    case 196 => 0x636e636e
    case 197 => 0x313c313c
    case 198 => 0x212c212c
    case 199 => 0x40414041
    case 200 => 0xb2bdb2bd
    case 201 => 0x323d323d
    case 202 => 0xb0bdb0bd
    case 203 => 0xc1c4c1c4
    case 204 => 0xa2a1a2a1
    case 205 => 0xb2b1b2b1
    case 206 => 0x424d424d
    case 207 => 0x51545154
    case 208 => 0x333e333e
    case 209 => 0xd0d5d0d5
    case 210 => 0x686d686d
    case 211 => 0x737e737e
    case 212 => 0x909d909d
    case 213 => 0xd0d1d0d1
    case 214 => 0x424d424d
    case 215 => 0x52555255
    case 216 => 0x73767376
    case 217 => 0xa0a1a0a1
    case 218 => 0xe1ece1ec
    case 219 => 0x42454245
    case 220 => 0xb1b4b1b4
    case 221 => 0x232e232e
    case 222 => 0x61646164
    case 223 => 0xf2f1f2f1
    case 224 => 0xe3e6e3e6
    case 225 => 0xb1b0b1b0
    case 226 => 0xb1b0b1b0
    case 227 => 0x939e939e
    case 228 => 0x525d525d
    case 229 => 0xf1f0f1f0
    case 230 => 0xe2e5e2e5
    case 231 => 0xb2b1b2b1
    case 232 => 0x31303130
    case 233 => 0xe2e1e2e1
    case 234 => 0x616c616c
    case 235 => 0x535e535e
    case 236 => 0xe0e5e0e5
    case 237 => 0xf0f1f0f1
    case 238 => 0xc1ccc1cc
    case 239 => 0x808d808d
    case 240 => 0x12151215
    case 241 => 0x323e323e
    case 242 => 0x50555055
    case 243 => 0xd0d5d0d5
    case 244 => 0x62616261
    case 245 => 0x21282128
    case 246 => 0x03060306
    case 247 => 0x33363336
    case 248 => 0xe0e1e0e1
    case 249 => 0x131e131e
    case 250 => 0x01040104
    case 251 => 0x71747174
    case 252 => 0x90919091
    case 253 => 0x626d626d
    case 254 => 0x222d222d
    case _ => 0x92919291  // b == 255
  }

  function SS3(b: bv8): bv32 {
    match b
    case 0 => 0x9c069c06
    case 1 => 0x5c025c02
    case 2 => 0xdc0edc0e
    case 3 => 0xd60ad60a
    case 4 => 0x54015401
    case 5 => 0x14051405
    case 6 => 0xac0aac0a
    case 7 => 0x24012401
    case 8 => 0x5c015c01
    case 9 => 0x4c034c03
    case 10 => 0x180a180a
    case 11 => 0x1c0e1c0e
    case 12 => 0x14051405
    case 13 => 0xfc0ffc0f
    case 14 => 0xca08ca08
    case 15 => 0x640b640b
    case 16 => 0x280a280a
    case 17 => 0x44014401
    case 18 => 0x20002000
    case 19 => 0x9c059c05
    case 20 => 0xe0020e02
    case 21 => 0xe2040e04
    case 22 => 0xc800c800
    case 23 => 0x1707170f
    case 24 => 0xac01ac01
    case 25 => 0x8f038f03
    case 26 => 0x03000300
    case 27 => 0x7c037c03
    case 28 => 0xbc03bc03
    case 29 => 0x10051005
    case 30 => 0xd204d204
    case 31 => 0xec0bec0b
    case 32 => 0x70047004
    case 33 => 0x8c028c02
    case 34 => 0x3c0f3c0f
    case 35 => 0xa808a808
    case 36 => 0x30023002
    case 37 => 0xdc05dc05
    case 38 => 0xf60af60a
    case 39 => 0x74047404
    case 40 => 0xec0aec0a
    case 41 => 0x94059405
    case 42 => 0x0c030c03
    case 43 => 0x54035403
    case 44 => 0x5c045c04
    case 45 => 0x58035803
    case 46 => 0xbc05bc05
    case 47 => 0x04010401
    case 48 => 0x24022402
    case 49 => 0x1c041c04
    case 50 => 0x74037403
    case 51 => 0x98089808
    case 52 => 0x10001000
    case 53 => 0xcc0ccc0c
    case 54 => 0xf204f204
    case 55 => 0xd809d809
    case 56 => 0x2c022c02
    case 57 => 0xe70be70b
    case 58 => 0x72047204
    case 59 => 0x80038003
    case 60 => 0x98039803
    case 61 => 0xd104d104
    case 62 => 0x84028402
    case 63 => 0xc908c908
    case 64 => 0x64026402
    case 65 => 0x54025402
    case 66 => 0xa40ba40b
    case 67 => 0xec0bec0b
    case 68 => 0x0c050c05
    case 69 => 0xb606b606
    case 70 => 0x9c069c06
    case 71 => 0x4c074c07
    case 72 => 0xb407b407
    case 73 => 0x58025802
    case 74 => 0xc608c608
    case 75 => 0x78067806
    case 76 => 0xa602a602
    case 77 => 0x10021002
    case 78 => 0xac0fac0f
    case 79 => 0xd405d405
    case 80 => 0x64016401
    case 81 => 0xc400c400
    case 82 => 0xb404b404
    case 83 => 0x44014401
    case 84 => 0x54025402
    case 85 => 0x7c057c05
    case 86 => 0x8c058c05
    case 87 => 0x08000800
    case 88 => 0x1c071c07
    case 89 => 0x98059805
    case 90 => 0x00000000
    case 91 => 0x18051805
    case 92 => 0x04000400
    case 93 => 0x54035403
    case 94 => 0xf407f407
    case 95 => 0xe404e404
    case 96 => 0xfc05fc05
    case 97 => 0x74067406
    case 98 => 0x2c0f2c0f
    case 99 => 0x24072407
    case 100 => 0xb000b000
    case 101 => 0x8c038c03
    case 102 => 0x0c060c06
    case 103 => 0xac08ac08
    case 104 => 0xa400a400
    case 105 => 0x6c066c06
    case 106 => 0x94039403
    case 107 => 0x4c054c05
    case 108 => 0x6c096c09
    case 109 => 0x7c047c04
    case 110 => 0x08050805
    case 111 => 0x08060806
    case 112 => 0xbc0fbc0f
    case 113 => 0xec0fec0f
    case 114 => 0xf400f400
    case 115 => 0xc404c404
    case 116 => 0x84038403
    case 117 => 0x14041404
    case 118 => 0xfc0efc0e
    case 119 => 0x64046404
    case 120 => 0xdc0ddc0d
    case 121 => 0x2c062c06
    case 122 => 0x4c074c07
    case 123 => 0x18061806
    case 124 => 0x04020402
    case 125 => 0x24012401
    case 126 => 0x6c096c09
    case 127 => 0x64026402
    case 128 => 0x02000200
    case 129 => 0xf404f404
    case 130 => 0x90029002
    case 131 => 0x88028802
    case 132 => 0x0c000c00
    case 133 => 0xb400b400
    case 134 => 0x7c067c06
    case 135 => 0xd000d000
    case 136 => 0x78067806
    case 137 => 0x44034403
    case 138 => 0x94069406
    case 139 => 0xe404e404
    case 140 => 0x24062406
    case 141 => 0x80008000
    case 142 => 0xac05ac05
    case 143 => 0xdc07dc07
    case 144 => 0xa400a400
    case 145 => 0x30003000
    case 146 => 0x34073407
    case 147 => 0xac06ac06
    case 148 => 0x34063406
    case 149 => 0x14051405
    case 150 => 0x22002200
    case 151 => 0x38003800
    case 152 => 0xf404f404
    case 153 => 0xa407a407
    case 154 => 0x44054405
    case 155 => 0x4c044c04
    case 156 => 0x84018401
    case 157 => 0xe808e808
    case 158 => 0x84048404
    case 159 => 0x94079407
    case 160 => 0x34053405
    case 161 => 0xcc03cc03
    case 162 => 0xcc06cc06
    case 163 => 0x3c003c00
    case 164 => 0x74017401
    case 165 => 0x14011401
    case 166 => 0xc400c400
    case 167 => 0x88058805
    case 168 => 0x74057405
    case 169 => 0xfc03fc03
    case 170 => 0xd808d808
    case 171 => 0xf800f800
    case 172 => 0x94049404
    case 173 => 0x58095809
    case 174 => 0x80028002
    case 175 => 0xc400c400
    case 176 => 0xfc07fc07
    case 177 => 0x48054805
    case 178 => 0x38053805
    case 179 => 0x64036403
    case 180 => 0xc000c000
    case 181 => 0xcc07cc07
    case 182 => 0xd406d406
    case 183 => 0xb800b800
    case 184 => 0x0c070c07
    case 185 => 0x8c068c06
    case 186 => 0x44024402
    case 187 => 0x20032003
    case 188 => 0x90059005
    case 189 => 0x6c046c04
    case 190 => 0xd803d803
    case 191 => 0xa400a400
    case 192 => 0x34043404
    case 193 => 0xf400f400
    case 194 => 0x48044804
    case 195 => 0xc200c200
    case 196 => 0x6c076c07
    case 197 => 0x3c053c05
    case 198 => 0x2c052c05
    case 199 => 0x40004000
    case 200 => 0xbc06bc06
    case 201 => 0x3c063c06
    case 202 => 0xbc04bc04
    case 203 => 0xc100c100
    case 204 => 0xa808a808
    case 205 => 0xb808b808
    case 206 => 0x4c064c06
    case 207 => 0x54055405
    case 208 => 0x3c033c03
    case 209 => 0xdc04dc04
    case 210 => 0x68046804
    case 211 => 0x7c077c07
    case 212 => 0x9c049c04
    case 213 => 0xd800d800
    case 214 => 0x48064806
    case 215 => 0x54065406
    case 216 => 0x74077407
    case 217 => 0xa000a000
    case 218 => 0xec05ec05
    case 219 => 0x44064406
    case 220 => 0xb404b404
    case 221 => 0x2c032c03
    case 222 => 0x64056405
    case 223 => 0xf808f808
    case 224 => 0xe400e400
    case 225 => 0xb808b808
    case 226 => 0xb000b000
    case 227 => 0x9c079c07
    case 228 => 0x5c065c06
    case 229 => 0xf800f800
    case 230 => 0xe604e604
    case 231 => 0xb200b200
    case 232 => 0x30013001
    case 233 => 0xe808e808
    case 234 => 0x6c056c05
    case 235 => 0x5c075c07
    case 236 => 0xe400e400
    case 237 => 0xf000f000
    case 238 => 0xcc05cc05
    case 239 => 0x88088808
    case 240 => 0x14061406
    case 241 => 0x38063806
    case 242 => 0x58055805
    case 243 => 0xd404d404
    case 244 => 0x62046204
    case 245 => 0x28052805
    case 246 => 0x04030403
    case 247 => 0x30033003
    case 248 => 0xe800e800
    case 249 => 0x1c031c03
    case 250 => 0x04050405
    case 251 => 0x78057805
    case 252 => 0x90009000
    case 253 => 0x68066806
    case 254 => 0x28062806
    case _ => 0x98029802  // b == 255
  }

  /** Round constant KC[i] of the key schedule. */
  function KC(i: nat): bv32
    requires i < 16
  {
    match i
    case 0 => 0x9e3779b9
    case 1 => 0x3c6ef373
    case 2 => 0x78dde6e6
    case 3 => 0xf1bbcdcc
    case 4 => 0xe3779b99
    case 5 => 0xc6ef3733
    case 6 => 0x8dde6e67
    case 7 => 0x1bbcdccf
    case 8 => 0x3779b99e
    case 9 => 0x6ef3733c
    case 10 => 0xdde6e678
    case 11 => 0xbbcdccf1
    case 12 => 0x779b99e3
    case 13 => 0xef3733c6
    case 14 => 0xde6e678d
    case _ => 0xbcdccf1b  // i == 15
  }
}
